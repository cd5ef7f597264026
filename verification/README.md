# A verified model of gnome-battery-bench

gnome-battery-bench replays a recorded log of keyboard and mouse input again and again while it
samples the battery, and saves the samples as a run file. This project models the three parts of
the program that carry its logic and proves what they guarantee.

**The test runner over the player protocol.** `TestRunners` holds the six phases and their
handlers, `RemotePlayers` the client proxy, `ReplayHelpers` the helper process, `SystemStates` the
brightness. `BenchSystem` joins them into one transition system: requests and replies travel in
order, a client handler is not interrupted, and a Stop call blocks the client until its reply has
arrived while the helper and the device go on. A run is any list of possible events from the
initial state, so every theorem about runs covers every interleaving. `ProtocolProperties`,
`RunProperties`, `StaleRequests` and `TestCourses` prove the theorems; `PlayerCalls` looks at
the two halves of the player alone, under any calls. The `Trace` of a system only records; no step reads it.

**The history of a run.** `PowerMonitor` turns batteries into a reading and two readings into
statistics. `TestRuns` thins readings as they come, keeps the maxima and detects the end;
`Thinning` proves what every such history satisfies. `RunLog` saves a run as a delta-encoded,
quantised log and loads it through the same thinning; `RunLogProperties` describes the result
without the codec (`Quantised`) and compares. `RunFiles` says what a file means whoever wrote it.

**The event log.** `EventRecorders` filters X events, `EventLogs` prints and parses the log
(numbers in `Decimals`, their format in `LineFormats`), and `EvdevPlayers` schedules events and writes them to the virtual
devices. `StopChords` follows the recorder past the stop chord, `Replay` follows a whole playback,
`Holding` and `Pointers` say what the devices hold and where they point, and `RecordReplay` composes all of it. `Player` times are
microseconds of the clock; a timer set for a time fires some latency later.

Each file of the program that changes objects in place has a class here. Its methods are proved
against functions on the value of the object (`Value()`), and the lemmas are about these
functions.

## Where the code differs from what one might expect

Each of these is kept in the model.

- A force-stop in WAITING goes to STOPPED without restoring the brightness
  (`src/test-runner.c:260-263`). `BrightnessRestored` says exactly which brightness then
  stays, and `ForceStopLeavesDimmed` gives a run.
- A force-stop during the prologue does not clear an earlier stop request
  (`src/test-runner.c:233`, `src/test-runner.c:245-257`); the next run then ends after its
  prologue. `StaleRequestIff`, `StaleRequestSkipsTest` and `StaleRequestHappens` state when this
  happens, what it does, and a run that shows it.
- The writer of the log cannot express that an energy becomes unknown (`src/test-run.c:392-403`).
  `QuantisedExactIff` and `LoadSavedExactIff` show that this is the only loss on the grid.
- The loader copies each entry from the last parsed one, whose memory thinning may have released
  (`src/test-run.c:693-725`, `src/test-run.c:210-213`). The model carries the value of that entry.
- A total over batteries depends on the order of discovery when some batteries report a figure and
  some do not, because an unknown -1 is added to a known total (`src/power-monitor.c:130-136`).
  `OrderIndependentIff` states the exact condition.
- After the Super-Q flush the recorder keeps its pressed lists and still emits the press of Q
  (`src/event-recorder.c:68-85`). README lines 68-69 of the program call the leftover a bug.
  `ChordLeavesQ` and `ReplayOfChordLeavesQ` state the effect on the log and on the virtual
  keyboard, and `AlternatesAfterChordIff` when presses and releases go on alternating.
- The length of recorded data counts words of four bytes, while the loop over it counts bytes
  (`src/event-recorder.c:59`, `src/event-recorder.c:135`), so a batch of several events would be cut
  short: `BatchTakenWholeIff`. The X library delivers one event at a time, and then nothing is lost.
- Every button other than 1 and 2 is replayed as the right button (`src/evdev-player.c:80`,
  `src/evdev-player.c:85`), so a side button can release the right one.
  `RightAlwaysAgreesIff` states exactly for which input this shows, and `SideButtonReleasesRight`
  gives one.
- Key code 0 and negative ones do not exist on the virtual keyboard (`src/evdev-player.c:271`);
  `HasKey` says which do.
- The scheduled time multiplies in 32 bits and wraps above 4294967 ms (`src/evdev-player.c:120`):
  `ScheduleExactIff`.
- The duration of a log is kept in a signed integer and compared as an unsigned one
  (`src/event-log.c:99`): `GbbEventLogDuration` and `DurationIsLatestTimeIff`.
- A log line whose time field has no digits leaves the time uninitialised
  (`src/event-log.c:58`). The model takes the old contents as a parameter, `junk`;
  `ParseIsDefiniteIff` says when it matters.

## Assumptions

The player is ready before the first start; no message is lost and no call times out; `Destroy` is
not called; the cached brightness properties are current when they are saved and nothing else
changes the brightness; handlers of the `phase-changed` signal do not call back into the runner;
only runs made for a test
are started. Clocks, latencies, readings of single batteries, the
names of key codes and X events are inputs. Numbers are exact, and division by zero follows the
IEEE rules (`Doubles`); 64-bit times do not overflow.

## Model

| member | source | states |
|---|---|---|
| ProtocolProperties.StepKeepsInvariant | src/remote-player.c:64-152 | every event of client, helper, device and user keeps the invariant that at most one Play is outstanding, at one place of the round trip, with at most one Stop behind it |
| ProtocolProperties.RunKeepsInvariant | src/replay-helper.c:57-134 | the same over every run, so in every interleaving |
| ProtocolProperties.EachPlayFinishesOnce | src/remote-player.c:64-110 | every accepted Play but an outstanding last one has had exactly one finished signal, in order of the calls, and the device opened the files in that order |
| ProtocolProperties.StopEndsOnlyItsTarget | src/replay-helper.c:120-129 | a playback ended by a Stop is the one outstanding when that Stop was sent, and a Stop answered "Player stopped" lost the race against the natural end of its own target |
| ProtocolProperties.StopReturnsAfterTheEnd | src/remote-player.c:128-152 | when the Stop call returns, the helper is idle, nothing is in transit, exactly the finished signal of its target waits to be dispatched, and the reply says whether the call or the end of the file has ended it |
| ProtocolProperties.PhaseTable | src/test-runner.c:65-110 | a Play is outstanding exactly in PROLOGUE, RUNNING, STOPPING and EPILOGUE, force_stop implies STOPPING, RUNNING implies a reading, and neither "already playing" message ever occurs |
| ProtocolProperties.PlaybackProgress | src/replay-helper.c:57-129 | each protocol step brings outstanding messages strictly nearer to the client, and while a Play is outstanding some step or the dispatch is possible |
| ProtocolProperties.InitialInvariant | src/test-runner.c:122-135 | the initial system satisfies the invariant |
| RunProperties.ReactionIsApplied | src/test-runner.c:65-266 | seen from outside, each event changes the runner as its handler says, a blocking Stop included, and protocol steps do not change it |
| RunProperties.FilesPlayed | src/test-runner.c:54-110 | at every moment the files played since start are prologue, loops, epilogue; STOPPED without force-stop has played an existing epilogue once and last; after a force-stop nothing more is played |
| RunProperties.StopReachesStopped | src/test-runner.c:222-235 | after a stop in PROLOGUE, WAITING or RUNNING at most two finished signals reach STOPPED, whatever falls in between |
| RunProperties.ForceStopReachesStopped | src/test-runner.c:237-266 | after a force-stop at most one finished signal reaches STOPPED |
| RunProperties.RunsUntilDone | src/test-runner.c:82-86 | a running test that nobody stops leaves RUNNING, in any interleaving, only once its run is done |
| TestCourses.RunnerByItself | src/test-runner.c:65-266 | until STOPPED the runner inside the system does what its handlers do alone: the playback decides when events come, not what they do |
| TestCourses.WaitsForBattery | src/test-runner.c:100-106 | a test that nobody stops is WAITING exactly as long as all readings are on line power, and records none of them |
| TestCourses.RecordsFromFirstOffline | src/test-runner.c:100-109 | in WAITING and RUNNING its run is made of all readings from the first one off line power on, in order, and of no other |
| TestCourses.StartsAtFirstOffline | src/test-runner.c:101-103 | such a run starts at the wall clock of that reading and keeps it first |
| TestCourses.RunIsFrozen | src/test-runner.c:100-109 | in PROLOGUE, STOPPING and EPILOGUE no event changes the run |
| TestCourses.TestLastsItsDuration | src/test-run.c:156-166 | a test that nobody stops has ended only if a reading came more than its duration after the first one off line power, or below its percentage |
| TestCourses.NextFinishedSignal | src/test-runner.c:82-86 | while it is RUNNING a finished signal plays the loop again if the readings do not allow an end, and ends the test once they lie well past it |
| TestCourses.NoStartOnLinePower | src/power-monitor.c:173-179 | no test leaves WAITING on a reading of adapters one of which is on line |
| TestCourses.StartOffLinePower | src/test-runner.c:100-106 | and the first reading with all adapters off line starts it |
| RunProperties.BrightnessRestored | src/test-runner.c:46-63 | over any sequence of runs STOPPED shows the brightness held before the first run, or the dimmed one that the last force-stop in WAITING left |
| RunProperties.ForceStopLeavesDimmed | src/test-runner.c:260-263 | a run of three events that ends in STOPPED with the dimmed brightness, for every test without a prologue |
| StaleRequests.StaleRequestIff | src/test-runner.c:237-258 | a stop request outlives its prologue exactly if a force-stop overtakes it |
| StaleRequests.PendingStopSkipsLoop | src/test-runner.c:75-81 | from any reachable moment with a stop pending in the prologue, the run is never WAITING or RUNNING before STOPPED and plays no loop, in any interleaving |
| StaleRequests.StaleRequestSkipsTest | src/test-runner.c:203-235 | a stale request does that to the next run with a prologue |
| StaleRequests.StaleRequestHappens | src/test-runner.c:245-257 | a run of nine events that leaves a stale request in STOPPED, for every test with a prologue |
| RunProperties.RecordingOverRun | src/test-runner.c:94-110 | in every run of the system the recorded history is thinned and carries its own maxima |
| TestRunners.TestRunner.RunnerSetStopped | src/test-runner.c:46-52 | restores the brightness and enters STOPPED, with no call on the player |
| TestRunners.TestRunner.RunnerSetEpilogue | src/test-runner.c:54-63 | plays the epilogue if there is one, else stops |
| TestRunners.TestRunner.OnPlayerFinished | src/test-runner.c:65-92 | whole new state and the call made, by phase, pending requests and whether the run is done |
| TestRunners.TestRunner.OnPowerMonitorChanged | src/test-runner.c:94-110 | whole new state of runner and run, and the call made, for a new reading |
| TestRunners.TestRunner.GbbTestRunnerSetRun | src/test-runner.c:185-195 | takes any run in STOPPED, with a test or without, and ignores it elsewhere |
| TestRunners.TestRunner.GbbTestRunnerStart | src/test-runner.c:203-220 | saves and dims the brightness and starts the prologue or waits |
| TestRunners.TestRunner.GbbTestRunnerStop | src/test-runner.c:222-235 | whole new state and the call made, by phase |
| TestRunners.TestRunner.GbbTestRunnerForceStop | src/test-runner.c:237-266 | whole new state and the call made, by phase |
| RemotePlayers.RemotePlayer.RemotePlayerMaybeStart | src/remote-player.c:90-110 | sends a Play for a pending file exactly when ready |
| RemotePlayers.RemotePlayer.OnProxyReady | src/remote-player.c:166-200 | becoming ready sends the Play of a file that was pending |
| RemotePlayers.RemotePlayer.PlayFd | src/remote-player.c:112-126 | refuses a second file, else makes it pending and starts it when ready |
| RemotePlayers.RemotePlayer.StopPlayer | src/remote-player.c:128-152 | drops a pending file without a call, else sends Stop |
| RemotePlayers.RemotePlayer.OnPlayReply | src/remote-player.c:64-88 | clears `started` and emits finished once, after an error reply too, and does nothing for a cancelled call |
| ReplayHelpers.ReplayHelper.OnPlayerFinished | src/replay-helper.c:57-66 | answers the open Play and disconnects itself |
| ReplayHelpers.ReplayHelper.StopDevicePlayer | src/evdev-player.c:171-190 | closes the file and has the Play answered if the handler is connected |
| ReplayHelpers.ReplayHelper.HandlePlayCall | src/replay-helper.c:80-118 | refuses while a Play is open, else starts the device |
| ReplayHelpers.ReplayHelper.HandleStopCall | src/replay-helper.c:120-129 | refuses when nothing plays, else sends the Play reply before the Stop reply |
| PlayerCalls.ServeOne | src/replay-helper.c:80-129 | what each call does to a busy and to an idle helper, and with which replies |
| PlayerCalls.EveryCallIsAnswered | src/replay-helper.c:57-134 | under any sequence of calls every Play is answered exactly once but the one that is playing, every Stop once, and the device plays exactly while a Play is open |
| PlayerCalls.FirstFileWaits | src/remote-player.c:112-126 | before the player is ready nothing is sent: the first file waits and every other is refused with a message |
| PlayerCalls.WaitingFileIsPlayedOrDropped | src/remote-player.c:90-152 | when the player becomes ready the waiting file is played, unless a stop has dropped it |
| SystemStates.SystemState.Save | src/system-state.c:203-217 | the current levels become the saved ones |
| SystemStates.SystemState.SetBrightnesses | src/system-state.c:219-230 | sets both levels and keeps the saved ones |
| SystemStates.SystemState.Restore | src/system-state.c:232-238 | the saved levels become current |
| PowerMonitor.ReadState | src/power-monitor.c:163-207 | a poll is on line exactly if some adapter is, has the time of the poll, and its figures are sums: of what all batteries report, unknown if none does, the design energy known exactly if every battery reports it |
| PowerMonitor.StatisticsMeaning | src/power-monitor.c:245-271 | a power is computed exactly for a quarter of a second and more in which energy was used, a life exactly if also its full energy is known; power times time is the energy used, and a life is to the time what the full energy is to the energy used |
| PowerMonitor.OrderIndependentIff | src/power-monitor.c:129-136 | a total is independent of the discovery order exactly if all batteries report the figure or none does |
| PowerMonitor.ReadingOrderFree | src/power-monitor.c:173-204 | with known energies the reading is the sums over the batteries, the same for every order of batteries and of adapters |
| PowerMonitor.AccumulateIsSum | src/power-monitor.c:129-136 | adding known increments to an unknown total gives their sum |
| PowerMonitor.Monitor.UpdateTimeout | src/power-monitor.c:209-222 | afterwards the state describes the adapters and batteries as polled; "changed" is emitted exactly if one of the four figures changed, and only then the time moves on |
| PowerMonitor.Monitor.constructor | src/power-monitor.c:224-237 | a new monitor holds a first reading |
| TestRuns.TestRun.Blank | src/test-run.c:64-69 | a blank run has no test, no history and zero maxima |
| TestRuns.TestRun.ForTest | src/test-run.c:87-104 | a new run is blank but for its test |
| TestRuns.TestRun.SetStartTime | src/test-run.c:106-111 | changes the start time only |
| TestRuns.TestRun.SetDurationTime | src/test-run.c:119-125 | replaces the duration, of either kind, by seconds |
| TestRuns.TestRun.SetDurationPercent | src/test-run.c:127-133 | replaces the duration, of either kind, by a percentage |
| TestRuns.TestRun.SetScreenBrightness | src/test-run.c:168-173 | changes the brightness only |
| TestRuns.TestRun.GetIsDone | src/test-run.c:156-166 | done exactly if the last kept reading is past the duration or below the percentage |
| TestRuns.TestRun.AddState | src/test-run.c:181-229 | whole new state: a reading is kept or dropped, and the maxima follow |
| Thinning.BuiltRuns | src/test-run.c:181-229 | whatever readings are offered, the history is thinned, `max_power` and `max_life` are the maxima over it, kept readings stay, and nothing else changes |
| Thinning.AddKeepsWellBuilt | src/test-run.c:210-226 | one reading keeps that invariant |
| Thinning.ThinnedIsFixed | src/test-run.c:189-215 | offering a thinned history again keeps all of it |
| Thinning.KeepsPercentIff | src/test-run.c:197-206 | when a percentage run keeps a reading, for a start above, on and under the target |
| Thinning.KeptWereOffered | src/test-run.c:181-215 | every kept reading was offered, the first one offered is kept, and only history and maxima change |
| Thinning.DoneOnlyPastDuration | src/test-run.c:162-163 | a timed run is done only if some reading offered lies more than its duration past the first |
| Thinning.DoneOnlyBelowTarget | src/test-run.c:164-165 | a percentage run is done only if some reading offered lies below the target |
| Thinning.DoneWithoutCharge | src/power-monitor.c:40-44 | with a full energy of 0 a percentage run is done exactly if the current energy is unknown, and with both unknown the battery counts as full |
| Thinning.DoneLagTime | src/test-run.c:156-166 | a timed run is done once a reading lies more than 1.01 durations past the start, and the last kept reading lags by at most 1 % |
| Thinning.DoneLagPercent | src/test-run.c:197-206 | a percentage run is done once a reading is below the target by 0.5 % of the way from the start |
| Thinning.AtMostHundredWithinDuration | src/test-run.c:193-196 | at most 100 kept readings lie within the duration of the start |
| Thinning.AtMostTwoHundredAboveTarget | src/test-run.c:197-206 | at most 200 kept readings are at or above the target percentage |
| Thinning.AverageBelowPeak | src/test-run.c:217-226 | for durations from 25 s the average power from the start to any kept reading never exceeds `max_power` |
| Thinning.PeakTimesLife | src/power-monitor.c:245-271 | once a life has been computed, `max_life * max_power` is at least a full battery |
| RunLog.WriteState | src/test-run.c:385-405 | one entry of the log: which members are written and with which rounding |
| RunLog.WriteLog | src/test-run.c:377-409 | the loop with its carried last state writes the delta encoding of the history |
| RunLog.WriteToFile | src/test-run.c:325-409 | the duration and log members of a saved run |
| RunLog.ReadState | src/test-run.c:692-722 | one entry read on top of the previous one, or the error of its first malformed member |
| RunLog.ReadDuration | src/test-run.c:637-647 | the duration, the percentage winning, or the first error |
| RunLog.ReadLog | src/test-run.c:687-728 | every entry is decoded on top of the last and offered to the thinning, or the first error is returned |
| RunLog.ReadFromFile | src/test-run.c:637-739 | loading succeeds exactly on well-formed duration and log, with the decoded and thinned run |
| RunLog.FailureStays | src/test-run.c:697-722 | a malformed entry fails the whole log with its own error |
| RunLogProperties.DecodeEncode | src/test-run.c:381-407 | decoding an encoded log gives the rounded offset and the last known rounded energies of every reading |
| RunLogProperties.LoadSaved | src/test-run.c:683-728 | loading a saved run is thinning the quantised history under the saved duration |
| RunLogProperties.QuantisedExactIff | src/test-run.c:392-403 | on the grid the codec loses nothing but the time origin exactly if no energy goes from known to unknown |
| RunLogProperties.LoadSavedExactIff | src/test-run.c:300-305 | on the grid loading a saved run returns the history rebased to time zero exactly under that condition, and then also the same maxima |
| RunLogProperties.LoadSaveIdempotent | src/test-run.c:683-728 | load after save, done twice, equals doing it once, rounding and thinning included |
| RunLogProperties.RethinSkipsOnlySingles | src/test-run.c:194-195 | for durations from 0.1 s loading keeps the first saved entry and never drops two neighbours |
| RunLogProperties.RethinDropsNoneIff | src/test-run.c:387 | loading a timed run drops no saved entry exactly if every gap in saved milliseconds exceeds a hundredth of the duration |
| RunLogProperties.RethinDropsNone | src/test-run.c:193-196 | so it drops none if all gaps are at least a hundredth of the duration and 1 ms |
| RunFiles.SavedEntry | src/test-run.c:385-405 | which of the five members every saved entry has and with which value, and that it has no other |
| RunFiles.LoadedWithinHalf | src/test-run.c:300-305 | what is loaded differs from what was saved by at most half a millisecond and half a microwatt-hour, and what was unknown stays so |
| RunFiles.TimeMsIsNearest | src/test-run.c:387 | times are rounded to the nearest millisecond, half up, except for a reading before the start |
| RunFiles.MicroIsNearest | src/test-run.c:300-305 | energies are rounded to the nearest microwatt-hour, half up |
| RunFiles.FileLoadsIff | src/test-run.c:637-728 | a file loads exactly if the members that are looked at have their types |
| RunFiles.EntryLoadsIff | src/test-run.c:697-722 | an entry loads exactly if it is an object whose five members have their types, and else the error names one that has not |
| RunFiles.LoadedDuration | src/test-run.c:468-490 | the duration of a loaded run: the percentage, else the seconds, else none, written as integer or not |
| RunFiles.LoadedEntries | src/test-run.c:691-722 | every entry of any well-formed log is loaded with the latest values of its members, or 0, false and unknown |
| Decimals.DigitsRoundTrip | src/event-recorder.c:38-46 | the value of a number's decimal digits is the number |
| Decimals.NoLeadingZero | src/event-recorder.c:38-46 | only 0 is printed with a leading zero |
| Decimals.AtoiDecimal | src/event-log.c:59-61 | `atoi` undoes `%d` on 32-bit integers |
| Decimals.ScanUnsignedDigits | src/event-log.c:58 | `sscanf("%u")` undoes `%u` on 32-bit numbers |
| LineFormats.NumberIsRead | src/event-log.c:58-61 | a field that starts with a number, after white space and with a sign or without, is read as that number, saturated at 64 bits and cut to 32 |
| LineFormats.NoNumberIsRead | src/event-log.c:58-61 | a field without a number is 0, or what the memory held for the time |
| EventLogs.InputStream.ReadLine | src/event-log.c:27-35 | reads the first of the remaining lines, or reports the end |
| EventLogs.GbbEventRead | src/event-log.c:15-76 | skips blank lines and returns the next event, a malformed line or the end, and leaves what follows |
| EventLogs.GbbEventLogDuration | src/event-log.c:78-109 | the latest time of the log as a signed integer, or -1 if a line is malformed |
| EventLogs.DurationIsLatestTimeIff | src/event-log.c:99 | for 32-bit times the duration is their maximum exactly if all are below 2^31, and otherwise 2^32 less |
| EventLogs.ParseIsDefiniteIff | src/event-log.c:56-61 | what a text parses to is independent of uninitialised memory exactly if it is malformed or every event has digits in its time field |
| EventLogs.ParsePrintedLine | src/event-recorder.c:27-47 | parsing a printed line, with or without comment, gives its event |
| LineFormats.LineMeaning | src/event-log.c:37-54 | after removing the comment and the blanks around, a line is blank exactly if nothing is left and malformed exactly if something without exactly four commas is left |
| LineFormats.TextIsItsLines | src/event-log.c:27-35 | the lines of a text are what its newlines separate, the last of which may be missing |
| LineFormats.LineHoldsEvent | src/event-log.c:56-61 | the five fields of a line are its name, time, place and detail, in this order |
| LineFormats.EveryLineHasAText | src/event-log.c:37-41 | every line splits into blanks, text, blanks and comment |
| LineFormats.LogMeaning | src/event-log.c:24-76 | a text parses exactly if no line is malformed, and then to the events of its lines in order |
| LineFormats.PrintedLayout | src/event-recorder.c:38-46 | a printed line is name, time, place and detail, and for keys the name of the key as a comment |
| EventLogs.ParsePrintedLog | src/event-log.c:15-76 | parsing a printed log gives the list of its events |
| EventLogs.BlankLineIgnored | src/event-log.c:37-45 | inserting a blank or comment-only line anywhere does not change what a text parses to |
| EventRecorders.EventRecorder.Dump | src/event-recorder.c:27-47 | the text of the output grows by exactly the line of one event, whose time is relative to the start, modulo 2^32 |
| EventRecorders.EventRecorder.DumpList | src/event-recorder.c:72-75 | the output grows by one line for each entry of a pressed list, in order |
| EventRecorders.EventRecorder.ReleaseAll | src/event-recorder.c:68-79 | the stop chord dumps releases of all pressed keys, then of all pressed buttons, keeps the lists, and disables the recording |
| EventRecorders.EventRecorder.OnKeyPress | src/event-recorder.c:63-86 | lists and output after a key press, repeats and the stop chord included |
| EventRecorders.EventRecorder.OnKeyRelease | src/event-recorder.c:87-97 | lists and output after a key release |
| EventRecorders.EventRecorder.OnButtonPress | src/event-recorder.c:98-113 | lists and output after a button press or a turn of the wheel |
| EventRecorders.EventRecorder.OnButtonRelease | src/event-recorder.c:114-127 | lists and output after a button release |
| EventRecorders.EventRecorder.OnXEvent | src/event-recorder.c:60-134 | one X event of a known kind |
| EventRecorders.EventRecorder.RecordBatch | src/event-recorder.c:58-137 | the loop records a batch event by event, up to an event of another kind or to the position at which it stops |
| EventRecorders.BatchTakenWholeIff | src/event-recorder.c:59-136 | a batch is processed whole exactly if it has at most one event, of a known kind |
| EventRecorders.QuarterTaken | src/event-recorder.c:59-136 | of a batch of events of known kinds a quarter, rounded up, is processed |
| EventRecorders.EventRecorder.XRecordCallback | src/event-recorder.c:49-138 | a start of data sets the time origin, data from the server is a batch, all else is ignored |
| EventRecorders.DisciplineBeforeChord | src/event-recorder.c:62-127 | before the stop chord, presses and releases of each key and button alternate starting with a press, and the pressed lists are duplicate-free and equal the unmatched presses |
| EventRecorders.PressedListsAreDown | src/event-recorder.c:62-127 | at every point the pressed lists hold exactly the keys and buttons whose latest X event is a press |
| EventRecorders.RecordsTheNews | src/event-recorder.c:49-137 | before the stop chord the log holds one event, with its name, detail, time and place, for each X event that moves something or turns the wheel, in order, and nothing else |
| EventRecorders.RecordAllAppend | src/event-recorder.c:59-136 | recording two streams after each other is recording their concatenation |
| EventRecorders.SessionIsOneRecording | src/event-recorder.c:49-138 | after the start of data, any sequence of callbacks records the processed events of all batches as one stream |
| EventRecorders.SessionRecordsTheNews | src/event-recorder.c:140-147 | so discipline and news hold of a whole session of callbacks, with times since its start |
| EventRecorders.FlushReleasesAll | src/event-recorder.c:68-75 | the log up to the end of the Super-Q flush leaves nothing held |
| EventRecorders.ChordOnWire | src/event-recorder.c:65-70 | the stop chord is a press of code 24 while code 133 is down |
| EventRecorders.PrintedWithTimeAndPlace | src/event-recorder.c:37-44 | everything printed for an X event, the flush included, carries its time since the start and its place |
| EventRecorders.ChordLeavesQ | src/event-recorder.c:68-85 | after the chord the log leaves exactly Q down unless Q was down, and no button, while the lists still hold everything |
| StopChords.AlternatesAfterChordIff | src/event-recorder.c:62-127 | whatever follows the chord, all presses and releases of the whole output alternate exactly if Q is not pressed again and nothing that was down at the chord is released |
| StopChords.WholeRecordingAlternatesIff | src/event-recorder.c:49-138 | the same for a whole recording, as a condition on the X events alone |
| StopChords.SecondReleaseAfterChord | src/event-recorder.c:87-97 | in particular the next release of Super ends the alternation |
| EvdevPlayers.EvdevPlayer.Remaining | src/evdev-player.c:118-127 | the delay is the longest wait in whole milliseconds that does not pass the scheduled time: never negative, less than 1 ms short, never past the later of schedule and now |
| EvdevPlayers.DelayIsLongestWait | src/evdev-player.c:119-127 | the truncating formula yields exactly that wait, and no other does |
| EvdevPlayers.EvdevPlayer.QueueEvent | src/evdev-player.c:105-129 | reads one event ahead and sets the timer for it, for the end of the log, or ends the process on a malformed line |
| EvdevPlayers.EvdevPlayer.PlayFd | src/evdev-player.c:156-169 | opens the log and queues its first event |
| EvdevPlayers.EvdevPlayer.Stop | src/evdev-player.c:171-190 | drops the queued event and its timer, closes the log and emits finished |
| EvdevPlayers.EvdevPlayer.WriteLogEvent | src/evdev-player.c:73-98 | what each kind of event writes to which device |
| EvdevPlayers.InputCodes | src/evdev-player.c:73-96 | the numbers of the Linux input events written for each kind of line |
| EvdevPlayers.InjectIsOneFrame | src/evdev-player.c:73-96 | what is written for an event goes to one device and ends with its only synchronisation |
| EvdevPlayers.EvdevPlayer.NextEventTimeout | src/evdev-player.c:59-103 | writes the queued event and queues the next, or stops at the end of the log |
| Replay.ScheduleExactIff | src/evdev-player.c:120 | the scheduled time is exact exactly for times up to 4294967 ms |
| Replay.NeverEarly | src/evdev-player.c:116-127 | no event fires a millisecond or more before its scheduled time |
| Replay.OwnLatencyOnly | src/evdev-player.c:116-127 | an event fires at most its own latency after the later of its scheduled time and the event before it |
| Replay.NoDrift | src/evdev-player.c:105-129 | with latencies up to L and gaps of at least L no event of the log is more than L late |
| Replay.PlaybackFollowsLog | src/evdev-player.c:59-129 | after i firings exactly the first i events of the file are written, in order, and the timer is due by the schedule the timing lemmas speak of |
| Replay.PlaybackEnds | src/evdev-player.c:67-70 | one firing after the last event ends the playback and emits finished once |
| Replay.StopEndsPlayback | src/evdev-player.c:171-190 | a stop in the middle of a log emits finished once, and nothing is written or fires any more |
| Replay.MalformedLogEndsProcess | src/evdev-player.c:110-114 | playing a malformed log writes the events before the malformed line, and the process ends when the last of them has fired |
| Holding.KeyboardHolds | src/evdev-player.c:73-78 | after any events a key is down on the virtual keyboard exactly if it exists there and its last move was a press |
| Holding.MouseHolds | src/evdev-player.c:79-88 | the same for a mouse button whose code no other moved button shares |
| Holding.HeldAsRecorded | src/event-recorder.c:62-127 | the devices fed with what was recorded before the chord hold the existing keys and the buttons 1 and 2 that the recorder holds |
| Holding.HeldAfterChord | src/event-recorder.c:68-85 | after the chord they hold Q, unless it was down before, and nothing else |
| Holding.RightAlwaysAgreesIff | src/evdev-player.c:79-88 | the virtual right button agrees with the recorder at every point of a stream exactly if each side button goes down while the right one is down and up while it is up |
| Holding.SideButtonLiftsRight | src/evdev-player.c:84-88 | releasing a button above 5 leaves the right button up, whatever was held |
| Holding.SideButtonReleasesRight | src/evdev-player.c:79-88 | concrete presses after which the recorder holds button 3 and the virtual mouse does not |
| Pointers.PointerFollows | src/evdev-player.c:89-96 | after any events the virtual pointer is at the place of the latest motion, on both axes, and the wheel has turned by the sum of the wheel events |
| Pointers.MotionRecorded | src/event-recorder.c:103-130 | whatever the stream, the log has its latest motion, and its wheel events sum up to the turns of button 4 minus those of button 5 |
| RecordReplay.RecordingPrintable | src/event-recorder.c:27-47 | everything recorded, the flush included, can be printed and read back |
| RecordReplay.WrittenAtPoint | src/evdev-player.c:59-129 | recording, printing, parsing and playing any stream writes, up to any point, exactly the events recorded by then |
| RecordReplay.ReplayReproducesRecording | src/event-recorder.c:49-137 | at every point of a stream without the stop chord, replaying the printed log holds exactly those keys of the pressed list that the virtual keyboard has, and buttons 1 and 2; button 3 at every point exactly if the side buttons nest |
| RecordReplay.OrdinaryMouseReproduced | src/evdev-player.c:79-88 | so with no buttons but the three and the wheel, button 3 is reproduced at every point |
| RecordReplay.ReplayMovesThePointer | src/evdev-player.c:89-96 | at every point of any stream the virtual pointer is where the real one was last seen to move, and the virtual wheel has turned as far as the real one |
| RecordReplay.ReplayHoldsWhatWasDown | src/event-log.c:15-76 | the virtual devices hold exactly the existing keys and the buttons that were down on the X server, button 3 if the side buttons nest |
| RecordReplay.ReplayOfChordLeavesQ | src/event-recorder.c:68-85 | playing a recording that ends with the stop chord leaves exactly Q down, unless it was down before, and no button |

## Left out

- The GTK interface, graphs, log list, shortcut grabbing and the sleep inhibitor: they hold no rule beyond calling the operations above.
- Polkit, D-Bus registration, creating and destroying players, and the start-up of the proxies: calls into code outside the repository; the player is taken as ready.
- Device creation, the XRecord set-up and `src/xinput-wait.c`: only the values of the events are modelled.
- The text form of JSON, dates, UUIDs, and writing with fsync: the codec starts from parsed objects whose member names are enumerated.
- The other members of a run file (names, description, id, start time, brightness, system information): they are copied one by one, and a loaded run has no test, so its header cannot be written again.
- `voltage_now`, which is always -1, and the `current` figure of the statistics, which is never computed.
- Reading batteries and system files (`src/power-supply.c`, `src/system-info.c`, `src/util-sysfs.c`), and finding the power supplies.
- `src/commandline.c`: option and duration parsing. The documentation offers an output file to the recorder, but `src/event-recorder.c:183` opens it for reading; the file is not part of this model.
- Floating-point rounding, NaN readings, integer overflow of 64-bit times, and memory management.
- TestRuns.TestRun.ForTest: name, description and the loop time, which only serve display, and the end of the process on an unreadable loop file.
- RunLog.WriteToFile: the other header members of the file, which are copies, and the failure of writing it.
- RunLog.ReadFromFile: the other header members; a malformed one also fails the load, before the log is read.
- EventLogs.GbbEventRead: an I/O error of the stream, which the callers treat like a malformed line.
- EventLogs.GbbEventLogDuration: failures to open, read or close the file.
- RemotePlayers.RemotePlayer.StopPlayer: the wait for the reply is a state of `BenchSystem`, not of the class.
- ReplayHelpers.ReplayHelper.HandlePlayCall: malformed arguments are left out; the client never sends them, and the helper would go on after its error reply.
- `gbb_event_recorder_new` and `_free` (`src/event-recorder.c:149-204`): X calls; a new recorder is idle with empty output.
- EvdevPlayers.EvdevPlayer.WriteLogEvent: a failed write ends the process and is not modelled.
- TestRunners.TestRunner.GbbTestRunnerStart: starting a run without a test, as the loader makes it, dereferences a null pointer, so it is a condition of the call.
- Thinning.AtMostTwoHundredAboveTarget: readings have a positive full energy; with an unknown one the percentage is not a charge.
- Thinning.DoneLagPercent: readings have a positive full energy, for the same reason.
