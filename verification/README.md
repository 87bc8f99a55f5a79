# TCA9548A: verified model

A Dafny model of the TCA9548A I2C switch driver, of the diagnostic command-line engine built on it,
of the engine's console byte paths in both directions, and of the host runner that judges the
engine over a serial link. Together they form one closed system, and the strongest results cross
its parts: what the runner accepts is tied to what the firmware really did.

## Layout

| files | component |
|---|---|
| `Base`, `Status` | 32-bit arithmetic, control-byte bits, status codes |
| `DriverSpec`, `DriverProofs`, `Driver` | the driver: one call on values, what its fields mean over every history, and the object that updates its fields in place |
| `Engine`, `Cli` | the session engine: one line or tick on values, and the object |
| `MaskRuns`, `ScanRuns`, `TimedRuns` | the invariants of stress/mix/sweep, of scan/discover, and of watch/soak |
| `EngineRuns`, `SessionTheorems` | every interleaving of lines, discarded lines, outside changes and ticks; the theorems over whole runs |
| `RunReports`, `FailureCauses`, `WatchRows` | what the closing report, the failure results and the sample rows of any run say about it |
| `Terminal` | the engine behind its line accumulator, byte by byte |
| `ConsoleRing`, `ConsoleOutput` | the output ring on values and on its array |
| `LineStream`, `LineBuffer` | the meaning of a byte stream as command lines; the accumulator object |
| `Numerals`, `Whitespace`, `HealthText` | numerals and their parser; stripping; the health report's printer and reader |
| `SnapshotChecks`, `StressChecks`, `DiscoveryChecks`, `ScanChecks`, `EvidenceRows` | the runner's comparisons and classifications against the firmware's runs |
| `Interruptions` | two sessions that pass and whose responses the runner rejects |
| `Framing`, `SerialLink` | marker framing over a FIFO link with arbitrary read chunking |
| `MaskProcedures`, `Verdict` | the runner's mask-restore procedures, its result list and exit code |

Objects that the program updates in place are classes here. Each of their methods is proved to
move the object's abstract value (`State()`, `View()`) exactly as a function on values does, and the
properties of those functions are proved over all inputs as lemmas.

The environment is adversarial. Transport verdicts, the byte a failed write leaves, the effect of
RESET, the clock, address probes, the backend of the console, and the chunking of serial reads are
parameters without any restriction, except where a contract says so. A successful write sets the
chip's byte, a failed write leaves it at any value, and a successful read returns it. An outside
change of the chip that the driver has not been told of (`drifted`) suspends the claim about the
cached mask until the next transfer, RESET pulse or invalidation.

## Findings

A session's outcome does not settle whether the runner accepts the response to the command that
started it. Lines met while the session runs are answered into the same response, and some answers
match the runner's failure patterns or repeat a row that must be unique.

- `stress 1` with every transfer OK and one line discarded on the way passes, and its response is
  rejected for the `[E]` row of the discarded line (`Interruptions.DiscardedLineSpoilsStress`).
- `discover` with every address answering and one `stats` on the way passes, and its response is
  rejected because it holds two detection rows (`Interruptions.StatsSpoilDiscovery`).

The exact condition is in `StressChecks.RunnerAcceptsExactlyQuietPassedStress`,
`DiscoveryChecks.RunnerAcceptsExactlyQuietPassedDiscovery` and
`ScanChecks.RunnerAcceptsExactlyQuietPassedScan`: the session passed and no line met during it printed
such a row. `StressChecks.SpoilingLines` says which lines do, and in which state.

## Model

| member | source | states |
|---|---|---|
| Driver.Bus.Write | src/TCA9548A.cpp:191-196 | the environment of a write: OK sets the byte, a failure leaves it at any value |
| Driver.Bus.WriteRead | src/TCA9548A.cpp:206-210 | the environment of a read: an OK read returns the byte the chip holds |
| Driver.Bus.PulseReset | src/TCA9548A.cpp:109-111 | the RESET callback may return any status and leave any byte |
| Driver.Tca9548a.constructor | include/TCA9548A/TCA9548A.h:150-156 | the object starts unbound, UNINIT, with zero counters and an unknown mask |
| Driver.Tca9548a.Begin | src/TCA9548A.cpp:44-76 | the new state of driver, chip and history, and the status, for every configuration and answer |
| Driver.Tca9548a.End | src/TCA9548A.cpp:82-84 | unbinds without bus access and keeps only the lifetime totals |
| Driver.Tca9548a.Probe | src/TCA9548A.cpp:86-93 | one untracked read; refuses when unbound |
| Driver.Tca9548a.Recover | src/TCA9548A.cpp:95-97 | one write of all-off |
| Driver.Tca9548a.HardReset | src/TCA9548A.cpp:99-132 | forgets the mask, pulses RESET, reads back, and reports the callback's error, a contract breach, the read's error or a nonzero byte |
| Driver.Tca9548a.SelectChannel | src/TCA9548A.cpp:134-144 | writes the one-hot byte of a valid channel, otherwise touches nothing; after OK the chip holds exactly the bit of that channel |
| DriverSpec.OneHot | include/TCA9548A/TCA9548A.h:44-49 | the byte of channel `ch` is 2^ch: bit `j` is set exactly when `j` is `ch` |
| Driver.Tca9548a.WriteChannelMask | src/TCA9548A.cpp:146-152 | one tracked write, or NOT_INITIALIZED with nothing changed |
| Driver.Tca9548a.DisableAll | src/TCA9548A.cpp:154-156 | one write of all-off |
| Driver.Tca9548a.ReadChannelMask | src/TCA9548A.cpp:158-164 | one tracked read; the caller's variable is set only on success |
| Driver.Tca9548a.InvalidateChannelMask | src/TCA9548A.cpp:180-182 | drops the provenance and keeps the byte and the health |
| Driver.Tca9548a.WriteControlByte | src/TCA9548A.cpp:191-204 | a failed write leaves the cache unknown, a successful one holds the written byte |
| Driver.Tca9548a.ReadControlByte | src/TCA9548A.cpp:206-222 | a failed read leaves the cache unknown and the caller's variable alone |
| Driver.Tca9548a.UpdateHealth | src/TCA9548A.cpp:224-258 | saturating counters, sticky error, and the state the threshold decides |
| Driver.Tca9548a.ResetBindingState | src/TCA9548A.cpp:260-270 | all binding state returns to neutral; lifetime totals stay |
| DriverProofs.HealthRefinesHistory | src/TCA9548A.cpp:224-270 | after any calls, answers and outside changes: totals are the true tracked counts capped at 2^32-1, the consecutive count is the binding's failure run capped at 255, the state is the documented function of the uncapped history, the sticky error is the binding's latest failure, and a known mask is the chip's byte |
| DriverProofs.FailureRunIsTrailing | src/TCA9548A.cpp:229-258 | the failure run is exactly the trailing block of failures among the binding's tracked transfers |
| DriverProofs.SaturationNeverHidesOffline | include/TCA9548A/TCA9548A.h:150-156 | OFFLINE holds exactly when the true run has reached the threshold after a success, although the counter stops at 255; READY implies a working binding |
| DriverProofs.HealthNeverGates | include/TCA9548A/TCA9548A.h:146-149 | two drivers that differ only in health make the same transfers, leave the same byte, learn the same mask and return the same status, for every call |
| DriverProofs.ProbeNeverChangesHealth | src/TCA9548A.cpp:86-93 | a probe moves nothing but the cached mask, and never the chip |
| DriverProofs.BeginBindsOrRefuses | src/TCA9548A.cpp:44-76 | begin refuses exactly on a bound driver or a configuration outside the documented ranges, then changing nothing; otherwise it binds with one tracked read and stays bound even if that read fails |
| DriverProofs.HardResetVerifies | src/TCA9548A.cpp:99-132 | OK exactly when RESET and the read succeed and the chip really holds zero, verified in the cache; a failed callback is reported as its own error, and one that breaks its contract by its number |
| DriverProofs.WritesLand | src/TCA9548A.cpp:134-156 | the byte each writing call leaves on the chip after an OK transfer: the mask, the one bit of the channel, or zero |
| DriverProofs.VerdictsStayDistinct | src/TCA9548A.cpp:14-33 | each transport verdict has a status code of its own, so no failure is reported as another |
| DriverProofs.TransfersStampOneTime | src/TCA9548A.cpp:224-258 | a tracked transfer stamps exactly the time of its own verdict, success or failure |
| DriverProofs.TotalsNeverFall | src/TCA9548A.cpp:229-247 | over any calls, `end` included, lifetime totals and the history only grow |
| DriverProofs.CallKeepsTruth | src/TCA9548A.cpp:180-270 | each single call keeps counters, state and cached mask true to the history |
| Cli.Console.constructor | examples/common/Tca9548aCli.h:73-105 | the engine boots without a session, a row or a prompt |
| Cli.Console.RecordTransfer | examples/common/Tca9548aCli.cpp:607-610 | a transfer is counted once, as success or failure, only while a session is active |
| Cli.Console.WriteAndRecord | examples/common/Tca9548aCli.cpp:672-678 | a session write reaches driver, chip and session counters together |
| Cli.Console.SelectAndRecord | examples/common/Tca9548aCli.cpp:723-725 | the same for a channel selection |
| Cli.Console.ReadAndRecord | examples/common/Tca9548aCli.cpp:714-717 | the same for a tracked read |
| Cli.Console.ProbeAndRecord | examples/common/Tca9548aCli.cpp:731-731 | the same for a raw probe, which counts for the session and not for health |
| Cli.Console.Verify | examples/common/Tca9548aCli.cpp:256-262 | OK only if the read succeeded and returned the expected byte |
| Cli.Console.PrintPrompt | examples/common/Tca9548aCli.cpp:78-78 | one prompt, and none while a session is active |
| Cli.Console.FinishSession | examples/common/Tca9548aCli.cpp:619-644 | the session ends with its summary rows, and with a prompt unless a command is being processed |
| Cli.Console.PrintSummary | examples/common/Tca9548aCli.cpp:624-640 | the summary rows of the kind |
| Cli.Console.PrintStressSummary | examples/common/Tca9548aCli.cpp:625-633 | banner, results, duration, health delta, transfers and the safe-off failure of a stress session |
| Cli.Console.PrintRunStats | examples/common/Tca9548aCli.cpp:646-670 | run, outcome, cleanup and detection rows of an ended or still active session, or that there is none |
| Cli.Console.FailSession | examples/common/Tca9548aCli.cpp:599-605 | keeps the first error; goes to cleanup if there is something to restore, otherwise ends |
| Cli.Console.StopRun | examples/common/Tca9548aCli.cpp:612-617 | cancels an active session, but never a cleanup under way |
| Cli.Console.StartRun | examples/common/Tca9548aCli.cpp:581-597 | refuses without clock, binding, bus or probe, in this order and with the status it prints; otherwise a fresh session captures its target and counters |
| Cli.Console.TickCleaning | examples/common/Tca9548aCli.cpp:672-683 | cleanup is one write in one tick and one verification in the next |
| Cli.Console.SettleCleanup | examples/common/Tca9548aCli.cpp:679-682 | the first cleanup failure is kept and the session ends |
| Cli.Console.TickTopology | examples/common/Tca9548aCli.cpp:686-694 | a scan reads its topology first and fails on a failed read |
| Cli.Console.CountAnswer | examples/common/Tca9548aCli.cpp:696-710 | one address's answer enters counters and bitmaps |
| Cli.Console.VisitAddress | examples/common/Tca9548aCli.cpp:695-710 | one address is probed, recorded and printed |
| Cli.Console.TickAddress | examples/common/Tca9548aCli.cpp:695-711 | a broken probe or the last address ends the run |
| Cli.Console.MixPrimitive | examples/common/Tca9548aCli.cpp:721-734 | the bus operation of each of the seven mixed phases, and which one closes the round |
| Cli.Console.PairPrimitive | examples/common/Tca9548aCli.cpp:735-740 | the same for the two phases of stress and sweep |
| Cli.Console.TickCapture | examples/common/Tca9548aCli.cpp:714-718 | a sweep first captures the entry mask or ends |
| Cli.Console.FinishRound | examples/common/Tca9548aCli.cpp:743-745 | a finished round counts, and the last one turns to cleanup |
| Cli.Console.SettlePrimitive | examples/common/Tca9548aCli.cpp:741-745 | failure, next phase or end of round |
| Cli.Console.TickMask | examples/common/Tca9548aCli.cpp:713-746 | one tick of stress, mix or sweep |
| Cli.Console.TickSample | examples/common/Tca9548aCli.cpp:754-778 | one tick of watch or soak: expiry, waiting or a sample, by wrapped clock comparisons |
| Cli.Console.SampleMask | examples/common/Tca9548aCli.cpp:763-772 | a failed read or a changed byte ends the run |
| Cli.Console.KeepSample | examples/common/Tca9548aCli.cpp:773-777 | a good sample is counted, schedules the next and may be the last |
| Cli.Console.TickOnce | examples/common/Tca9548aCli.cpp:748-778 | one turn of the loop for all seven kinds |
| Cli.Console.Interrupt | examples/common/Tca9548aCli.cpp:340-388 | what each line prints into the printout of an active session, and that it changes nothing else |
| Cli.Console.Obey | examples/common/Tca9548aCli.cpp:389-466 | which lines act while idle |
| Cli.Console.ProcessCommand | examples/common/Tca9548aCli.cpp:314-470 | one line: rejected, stopping, interrupting or obeyed, and the prompt |
| Cli.Console.ReportDiscard | examples/common/Tca9548aCli.cpp:300-308 | a discarded line yields an error row in the printout of an active session, and a prompt only while idle |
| Cli.Console.RunInputs | examples/common/Tca9548aCli.cpp:300-778 | any sequence of ticks, lines, discards and outside changes on the object is the run the theorems speak of |
| Terminal.Shell.Feed | examples/common/Tca9548aCli.cpp:300-308 | one received byte: the accumulator's result decides what the engine does |
| Terminal.Shell.DiscardInput | examples/common/Tca9548aCli.cpp:310-312 | the line coming in is spoiled through its end |
| Terminal.Shell.Live | examples/common/Tca9548aCli.cpp:300-312 | bytes, ticks, input losses and outside changes in any order drive the engine exactly with what was heard |
| Terminal.HearsTheStream | examples/common/Tca9548aCli.cpp:300-312 | the lines the engine hears are those of the byte stream, whatever happens between the bytes |
| Terminal.PromptsFollowTheStream | examples/common/Tca9548aCli.cpp:300-335 | from bytes to prompts: the lines dispatched or discarded are those the byte stream means, and each non-blank one met while idle owes exactly one prompt |
| MaskRuns.PrimitiveIsNextStep | examples/common/Tca9548aCli.cpp:719-742 | the phase machine follows an independent program of wanted bus events: each primitive is the transfer the next step asks for, and succeeds exactly when the event is that step met |
| MaskRuns.ProgramAt | examples/common/Tca9548aCli.cpp:719-745 | where each round and phase stands in that program |
| MaskRuns.MixBytes | examples/common/Tca9548aCli.cpp:726-728 | the mixed byte of each round is the running sum 0xA5, +37, +37, ... in a byte |
| MaskRuns.MaskTick | examples/common/Tca9548aCli.cpp:672-746 | every tick of a mask run is exactly one bus primitive and keeps the run on its program, its counters exact |
| MaskRuns.MaskStop | examples/common/Tca9548aCli.cpp:612-617 | cancelling at any point keeps the run's invariant |
| ScanRuns.EvidenceStep | examples/common/Tca9548aCli.cpp:695-710 | one more address keeps counters and the three bitmaps equal to the bus's answers |
| ScanRuns.ScanTick | examples/common/Tca9548aCli.cpp:685-711 | every tick of a scan or discovery is exactly one bus primitive and keeps the evidence exact |
| ScanRuns.EvidenceIsConsistent | examples/common/Tca9548aCli.cpp:654-668 | completed equals addresses visited, found plus errors never exceed it, tested is exactly the visited part of 0x70..0x77, ack and error bitmaps are disjoint parts of it, and the target verdict is the bus's own answer |
| TimedRuns.WrappedDue | examples/common/Tca9548aCli.cpp:762-762 | the signed comparison of wrapped times decides as the true times do, within 2^31 ms |
| TimedRuns.WrappedClockIsExact | examples/common/Tca9548aCli.cpp:748-778 | for every schedule, a watch or soak on the 32-bit clock samples, ends and judges exactly as an unbounded-clock machine |
| TimedRuns.TimedSessionIsExact | examples/common/Tca9548aCli.cpp:581-597 | the same from the start command on, wherever the clock wraps |
| TimedRuns.ReadsExactlyWhenDue | examples/common/Tca9548aCli.cpp:754-764 | the chip is read in a tick exactly when the interval has truly elapsed or a soak with a sample is at its deadline |
| TimedRuns.SoakPassMeans | examples/common/Tca9548aCli.cpp:755-776 | a soak ends at its first tick at or past its duration; a pass has at least two samples, all equal, the last at or after the deadline |
| TimedRuns.WatchPassMeans | examples/common/Tca9548aCli.cpp:773-777 | a watch passes exactly with its requested number of samples, never closer than the interval |
| WatchRows.WatchPrintsItsSamples | examples/common/Tca9548aCli.cpp:773-777 | from its command on, a watch prints exactly the samples of the unbounded-clock machine, in order, numbered from 1, each with its byte and time |
| EngineRuns.InvStep | examples/common/Tca9548aCli.cpp:300-778 | every line, discard, tick or outside change keeps all session invariants and moves the prompt balance by the request it was |
| EngineRuns.InvHolds | examples/common/Tca9548aCli.cpp:300-778 | those invariants hold in every reachable state |
| EngineRuns.MetIsSaid | examples/common/Tca9548aCli.cpp:340-388 | on every run the foreign rows of a session's printout are exactly what the lines met during it print |
| EngineRuns.OnePromptPerIdleLine | examples/common/Tca9548aCli.cpp:467-469 | a non-blank line met while idle yields one prompt, at once or when the session it started ends, whatever the ticks bring |
| EngineRuns.PromptConservation | examples/common/Tca9548aCli.cpp:467-469 | prompts printed equal the non-blank lines and discards met while idle, minus one exactly while a session is active |
| SessionTheorems.EndsWithinBound | examples/common/Tca9548aCli.cpp:672-754 | from any reachable state a scan ends within 113 bus primitives, discover 8, sweep 515, stress 2N+2, mix 7N+2, one per tick |
| SessionTheorems.StopEndsInTwoPrimitives | examples/common/Tca9548aCli.cpp:612-617 | after stop at most two more primitives run and two ticks end the session |
| SessionTheorems.MaskRunsKeepTheirProgram | examples/common/Tca9548aCli.cpp:599-605 | for every fault pattern, schedule and stop time, a run with something to restore did a prefix of its program, the last step gone wrong exactly if it failed before any cancellation, then exactly one write and one read aimed at that mask; cleanup is OK only if both succeeded and matched; a run with nothing to restore at most failed to read the entry mask |
| SessionTheorems.SweepPassVerifiesEveryByte | examples/common/Tca9548aCli.cpp:713-746 | a passed sweep wrote and verified 0..255 in order between reading the entry mask and restoring it, verified |
| SessionTheorems.VerifiedCleanupLeavesTheMask | examples/common/Tca9548aCli.cpp:672-683 | the tick that ends a run with a verified cleanup leaves the chip at the entry mask (sweep) or all-off (stress) |
| SessionTheorems.WorkTable | tools/tca9548a_hil.py:225-230 | the length of each program: 2N+2, 7N+2 of which 6N+2 tracked, 515 |
| SessionTheorems.PassedRunsAreFullyCounted | examples/common/Tca9548aCli.cpp:607-632 | a passed run recorded exactly that many successes and no failure, and the lifetime success counter moved by 2N+2, 6N+2 or 515 unless saturated |
| RunReports.MarksFollowTheInputs | examples/common/Tca9548aCli.cpp:581-617 | over every run, a session is cancelled exactly if a `stop` met it while it worked, and its target is the address staged by the last `addr` line that took effect before it started |
| RunReports.VerdictRowMeans | examples/common/Tca9548aCli.cpp:623-642 | the printout of an ended session closes with its verdict: CANCELLED exactly after such a `stop`, PASS exactly without one and with work and cleanup OK |
| RunReports.CleanupRowMeans | examples/common/Tca9548aCli.cpp:650-652 | the reported cleanup state is what the bus record shows: not needed without a mask to restore, pending while active, verified exactly if the last two bus steps wrote and read back that mask |
| RunReports.ClocksFollowTheInputs | examples/common/Tca9548aCli.cpp:581-645 | over every run, a session carries the clock readings of its own start and end |
| RunReports.DurationIsElapsed | examples/common/Tca9548aCli.cpp:629-648 | every duration printed is the true elapsed time below 2^32 ms, wherever the clock wraps |
| RunReports.DetectionRowMeans | examples/common/Tca9548aCli.cpp:654-668 | over every run, the detection row counts the bus answers by kind and judges the address staged when the session started by its own answer |
| RunReports.LaunchStartsExactly | examples/common/Tca9548aCli.cpp:450-597 | a launch while idle starts a fresh session exactly for a request in the numeric ranges with clock, ready bus, binding and probe as needed; a refused one changes nothing but the prompt |
| FailureCauses.FirstTroubleIsReported | examples/common/Tca9548aCli.cpp:599-617 | over every run, the primary result is the first trouble the session met: the status of the failed bus step, the packed expected and observed bytes, the cancellation, or the soak without a sample |
| FailureCauses.CleanupResultMeans | examples/common/Tca9548aCli.cpp:672-682 | the cleanup result is the first thing that went wrong in the last two bus steps, with its own status, and OK if nothing did |
| StressChecks.RunnerAcceptsExactlyQuietPassedStress | tools/tca9548a_hil.py:214-230 | over every run and every accepted count, the runner accepts an ended stress response exactly when the session passed and no line met during it printed a row its failure patterns match; the work of a pass is its formula |
| StressChecks.StressVerdict | tools/tca9548a_hil.py:214-230 | what each of the stress searches can find in an ended session's rows decides that acceptance |
| StressChecks.SpoilingLines | tools/tca9548a_hil.py:47-65 | which lines, in which state, print such a row |
| EvidenceRows.StressEvidence | tools/tca9548a_hil.py:214-230 | any printout whatever is accepted exactly if it has no alarming row and shows, each once, a complete safe result, a clean health delta and the 2N+2 or 7N+2 transfers |
| EvidenceRows.DiscoveryEvidence | tools/tca9548a_hil.py:187-202 | the same for discovery: one detection row of all eight candidates that agrees with the distinct found addresses, one completion and one pass |
| EvidenceRows.ScanEvidence | tools/tca9548a_hil.py:203-213 | the same for a scan: one completion that counts the distinct found addresses, one OK topology, and the scanning line |
| EvidenceRows.AlarmingNames | tools/tca9548a_hil.py:59-65 | a status alarms the runner exactly if the name the firmware prints for it is one of the words of its patterns |
| Interruptions.DiscardedLineSpoilsStress | examples/common/Tca9548aCli.cpp:304-306 | a passed stress session whose response is rejected for one discarded line |
| Interruptions.StatsSpoilDiscovery | examples/common/Tca9548aCli.cpp:368-369 | a passed discovery whose response is rejected for one `stats` |
| DiscoveryChecks.RunnerAcceptsExactlyQuietPassedDiscovery | tools/tca9548a_hil.py:187-202 | over every run the runner accepts an ended discovery exactly when it passed for a possible address and no line met during it printed a failure row or a detection row |
| ScanChecks.RunnerAcceptsExactlyQuietPassedScan | tools/tca9548a_hil.py:203-213 | over every run the runner accepts an ended scan exactly when it passed and no line met during it printed a row the step's patterns match, with and without the bus-error patterns |
| ScanChecks.CompleteScan | tools/tca9548a_hil.py:203-213 | a passed scan counts exactly the distinct addresses it lists and printed its topology once |
| DiscoveryChecks.AckedMeans | examples/common/Tca9548aCli.cpp:698-701 | an address is listed as found exactly when it answered |
| DiscoveryChecks.AckedCount | tools/tca9548a_hil.py:196-199 | the listed addresses are distinct, in range and as many as counted |
| DiscoveryChecks.TargetVerdict | tools/tca9548a_hil.py:200-200 | the printed target verdict is the target's membership among the found addresses |
| ConsoleOutput.Queue.constructor | examples/common/ConsoleOutput.h:83-87 | an empty queue at any capacity of at least 64 |
| ConsoleOutput.Queue.Enqueue | examples/common/ConsoleOutput.h:75-81 | the text is appended to the queued bytes across the end of the array |
| ConsoleOutput.Queue.Append | examples/common/ConsoleOutput.h:32-42 | a record is kept whole, and must be if no marker is owed and it fits beside the bytes still queued; otherwise it is dropped whole and counted |
| ConsoleOutput.Queue.Announce | examples/common/ConsoleOutput.h:48-52 | the loss marker is queued as soon as it fits |
| ConsoleOutput.Queue.Offer | examples/common/ConsoleOutput.h:54-56 | the backend is offered the oldest contiguous bytes: 64 of them, or all that are queued, or those up to the end of the array |
| ConsoleOutput.Queue.Drain | examples/common/ConsoleOutput.h:47-62 | what the backend took leaves the front of the queue; a backend that overclaims changes nothing |
| ConsoleOutput.Queue.CountRxOverflow | examples/common/ConsoleOutput.h:64-66 | a saturating count |
| ConsoleRing.QueueRefinesStream | examples/common/ConsoleOutput.h:30-62 | delivered then queued bytes are always the in-order stream of kept records and markers; records are kept or dropped whole, a marker stands between any dropped record and the next kept one, and all counters, that of input overflows included, are the true ones capped |
| ConsoleRing.DropsOnlyWhenForced | examples/common/ConsoleOutput.h:32-42 | over every run, a record is dropped exactly while a marker is owed or when it does not fit beside the bytes still undelivered, and otherwise kept at the end |
| ConsoleRing.DrainsExactly | examples/common/ConsoleOutput.h:47-62 | over every run, a drain queues the marker exactly when one is owed and fits, and then delivers exactly the next bytes of the stream that the backend took |
| ConsoleRing.NothingIsLostInTime | examples/common/ConsoleOutput.h:30-62 | while the undelivered bytes never exceed the capacity, delivered then queued bytes are the plain concatenation of all records, with no marker and zero loss counters |
| ConsoleRing.DrainsInBoundedCalls | examples/common/ConsoleOutput.h:47-62 | with a backend that takes at least a byte per offer, queue and pending marker drain in no more calls than the backlog has bytes, at every capacity of at least 64 |
| ConsoleRing.EqualCountersMeanNoLoss | examples/common/ConsoleOutput.h:35-39 | while unsaturated, the dropped-message counter reads the same at two moments exactly when no record was dropped between them |
| ConsoleRing.EqualOverflowsMeanNone | examples/common/ConsoleOutput.h:64-66 | while unsaturated, the overflow counter reads the same at two moments exactly when no overflow was reported between them |
| LineBuffer.FixedLineBuffer.PushByte | examples/common/CliLineBuffer.h:40-94 | one byte: buffered, discarded or a result; a ready command is copied with its final NUL, and otherwise the caller's buffer is untouched |
| LineBuffer.FixedLineBuffer.Edges | examples/common/CliLineBuffer.h:68-79 | the trimming loops find exactly the trimmed command |
| LineBuffer.FixedLineBuffer.Reset | examples/common/CliLineBuffer.h:96-100 | the empty state |
| LineStream.AccumulatorMeetsStream | examples/common/CliLineBuffer.h:40-94 | for every byte stream the results are those of splitting at CR and LF, judging each line by its first offending byte, and trimming |
| LineStream.ChunkingIsInvisible | examples/common/CliLineBuffer.h:40-94 | how the stream is cut never matters |
| LineStream.LineEndingsAreInvisible | examples/common/CliLineBuffer.h:59-66 | LF and CR LF streams give the same results and state |
| LineStream.CtrlUResynchronizes | tools/tca9548a_hil.py:938-952 | after any stream, 0x15 then LF yields exactly one discard result, never a command, and an empty buffer |
| LineStream.TrimMeaning | examples/common/CliLineBuffer.h:68-79 | trimming removes exactly the blanks at both ends |
| LineStream.WhatALineYields | examples/common/CliLineBuffer.h:26-80 | in numbers: a command is a line of at most 127 bytes, none below 32 but tabs; a bad byte among the first 128 makes it invalid; other lines of 128 or more are too long |
| Numerals.StrToUl | examples/common/CliArguments.h:22-25 | strtoul with base 0 as in section 7.22.1.4 of ISO/IEC 9899:2011: longest digit run, its value, and the range error, for any ULONG_MAX of at least 2^32-1 |
| Numerals.ParseUnsigned | examples/common/CliArguments.h:17-31 | accepts exactly the decimal, leading-zero octal and 0x hexadecimal numerals in range, the same at every width of unsigned long, and leaves the output alone otherwise |
| Numerals.NumeralShape | examples/common/CliArguments.h:24-25 | the digit run reaches the end of the text exactly when the text is a numeral |
| Numerals.PrintReads | examples/common/CliArguments.h:17-31 | a printed number reads back as itself in every base |
| Numerals.PrintersInvert | examples/common/CliArguments.h:17-31 | every 32-bit value survives decimal, octal and hexadecimal printing |
| Numerals.DigitTable | examples/common/CliArguments.h:17-31 | the sixteen digits and their values, in both cases |
| HealthText.PrintMask | examples/common/Tca9548aCli.cpp:89-99 | the byte in hexadecimal and the list of exactly its set channels in ascending order, or "none" |
| HealthText.ChannelListMeans | examples/common/Tca9548aCli.cpp:89-99 | the printed list is "none" exactly for 0, and split at its commas it is the digits of exactly the set bits, strictly ascending |
| HealthText.ListsAgree | tools/tca9548a_hil.py:1205-1208 | the reader's own list of demanded channels, computed from the byte, is the list the firmware prints |
| HealthText.CacheRowReads | tools/tca9548a_hil.py:1201-1208 | the printed cache row always passes the flag and channel-list cross-checks |
| HealthText.CacheRowExact | tools/tca9548a_hil.py:1201-1208 | a cache row passes the reader exactly with the right flags and the list of exactly the set channels of its byte |
| HealthText.ErrorRowReads | tools/tca9548a_hil.py:1180-1180 | the sticky-error row is always well-formed, for every code, detail and message |
| HealthText.ErrorRowShows | examples/common/Tca9548aCli.cpp:80-83 | the row shows the name of the code and the signed detail of the sticky error |
| HealthText.PairReads | tools/tca9548a_hil.py:1178-1179 | counter pairs read back exactly |
| HealthText.ReadingIsBounded | tools/tca9548a_hil.py:1178-1200 | whatever the rows, what the reader returns is a possible READY snapshot: a success, unsaturated failures and 32-bit values |
| HealthText.PrinterAndReaderAgree | tools/tca9548a_hil.py:1166-1209 | in every reachable driver state the reader, with its own literals, accepts the printed lines with indentation, prompt and optional echo if and only if the state is READY and the failure counter is unsaturated, and then returns exactly the four counters |
| HealthText.ResponseRows | tools/tca9548a_hil.py:1168-1172 | stripping, dropping empty lines, echo and prompt recovers exactly the printed rows |
| SnapshotChecks.HealthComparisonIsExact | tools/tca9548a_hil.py:1212-1219 | two reports of one run pass exactly when the driver is READY and no tracked transfer failed between them, recovered or not |
| SnapshotChecks.RestartIsRefused | tools/tca9548a_hil.py:1212-1219 | a report of another run with fewer successes on record than the baseline shows is refused |
| SnapshotChecks.ConsoleComparisonIsExact | tools/tca9548a_hil.py:1241-1251 | while the later of two console reports of one run is readable, they pass exactly when no record was dropped and no input overflow was reported between them |
| Framing.AcceptedExchangeIsWhole | tools/tca9548a_hil.py:1022-1050 | if the runner accepts, it has read everything the firmware produced, to the last byte, and splits it at the marker |
| Framing.CleanExchangeIsAccepted | tools/tca9548a_hil.py:1034-1050 | framing is complete: an answer with one prompt, at its end, and no marker label, followed by the marker's answer, is accepted and split where the marker begins |
| Framing.NoEarlyPrompt | tools/tca9548a_hil.py:1020-1024 | no proper prefix of such an answer, and none between it and the end of the marker's answer, ends with a prompt |
| Framing.PrintedAnswerIsProper | examples/common/Tca9548aCli.cpp:78-78 | printed rows without ">" and without the marker label, then the prompt, are such an answer |
| Framing.MarkerPlace | tools/tca9548a_hil.py:1036-1037 | a fresh marker can be matched only at the marker command's own answer |
| Framing.FirstPromptWasTheLast | tools/tca9548a_hil.py:1024-1043 | the prompt that triggered the marker was the response's final one |
| SerialLink.Link.Send | tools/tca9548a_hil.py:972-982 | the firmware will answer each line in order |
| SerialLink.Link.Receive | tools/tca9548a_hil.py:984-990 | any prefix of what is in flight may arrive; a read that delivers brings at least one byte if any is in flight |
| SerialLink.SerialRunner.DrainPending | tools/tca9548a_hil.py:995-1004 | pending output is consumed, all of it with as many sure reads as bytes; the session goes on exactly if it fits and is prompts and blanks only |
| SerialLink.SerialRunner.Poll | tools/tca9548a_hil.py:1006-1023 | one read: exactly when reading stops and why, and that a prompt at the end of new data, and nothing else, is reported as ready |
| SerialLink.SerialRunner.AwaitPrompt | tools/tca9548a_hil.py:1006-1024 | reading on: what each stop shows; and if the whole text arrives in time and has its only prompt at its end, it is received whole |
| SerialLink.SerialRunner.FirstRefusal | tools/tca9548a_hil.py:1024-1031 | more than one prompt or an unsolicited marker refuses the response |
| SerialLink.SerialRunner.ReadFramed | tools/tca9548a_hil.py:1006-1050 | completion means text equal to all output ahead of the marker and nothing left in flight; a proper answer that meets no trouble does complete |
| SerialLink.SerialRunner.Exchange | tools/tca9548a_hil.py:963-1053 | for any chunking and timing, a completed exchange returns exactly the stale output still in flight followed by the command's answer, and leaves nothing in flight; if that is one proper answer, both writes succeed, no read is late, no restart shows, the sizes fit and the link delivers within the turns, it does complete; every other completion shows its cause, and unsolicited payload sends nothing |
| SerialLink.SerialRunner.Synchronize | tools/tca9548a_hil.py:938-952 | attempted once; success proves that the answer was one of the two discard messages and nothing is in flight; with such an answer, nothing but prompts and blanks left over, and no trouble it succeeds |
| SerialLink.PrintedDiscardAcknowledged | examples/common/Tca9548aCli.cpp:304-306 | what the firmware prints for a discarded line is such an answer, with LF and with CR LF |
| SerialLink.SerialRunner.Command | tools/tca9548a_hil.py:954-961 | once framing is lost nothing is sent; in a clean session a completed command is given its own answer, and a proper answer without trouble does complete, whatever prompts and blanks were left over |
| SerialLink.SerialRunner.Session | tools/tca9548a_hil.py:954-1053 | over a whole session every completed command got its own answer, never an earlier one's; it stops short only at a command that met trouble or was not answered properly |
| MaskProcedures.Bench.Checked | tools/tca9548a_hil.py:1073-1085 | an unsynchronized session sends nothing; a lost exchange is the last one |
| MaskProcedures.Bench.Expect | tools/tca9548a_hil.py:1088-1090 | a read must show the expected byte |
| MaskProcedures.Bench.RunSweep | tools/tca9548a_hil.py:1130-1134 | every byte in order is written and read back, or the script stops at its first failure |
| MaskProcedures.Bench.RunControls | tools/tca9548a_hil.py:1135-1141 | each control operation leaves the byte it declares |
| MaskProcedures.Bench.RunRouting | tools/tca9548a_hil.py:1105-1129 | success means each declared address is visible on exactly its declared channels and absent all-off, with every upstream device visible throughout |
| MaskProcedures.Bench.RunMaskChecks | tools/tca9548a_hil.py:1092-1157 | restoration is attempted exactly when an entry mask was captured and framing is intact; it aims at the entry byte; zero failures mean the whole script ran, the entry byte is back and routes are isolated |
| MaskProcedures.StandardControlsAgree | tools/tca9548a_hil.py:1136-1141 | the runner's six expected bytes are what a faithful chip holds, whatever it held before |
| Verdict.ExitCodeMeaning | tools/tca9548a_hil.py:449-470 | strict exit zero means every step passed and no artifact was lost; omissions and dry runs forgive NOT_RUN only, and every other exit is 1; the overall status is the worst there is, and PASS is a non-empty strict success |
| Verdict.LiveRun.AppendNotRun | tools/tca9548a_hil.py:1358-1370 | the plan is completed in order and finished results are untouched |
| Verdict.LiveRun.FailSession | tools/tca9548a_hil.py:1380-1391 | the plan is completed, and the last executed step becomes UNKNOWN unless it failed; without steps it is an artifact error |
| Verdict.LiveRun.CloseTranscript | tools/tca9548a_hil.py:1414-1424 | a transcript that fails to close is recorded, and turns the last executed step into UNKNOWN unless it failed |
| Verdict.LiveRun.RunSteps | tools/tca9548a_hil.py:1462-1532 | the steps run in plan order up to the first that does not pass, and each is recorded with its own judgement |
| Verdict.LiveRun.RunPlan | tools/tca9548a_hil.py:1373-1539 | for every plan and interruption point: one result per step in plan order, each its own judgement except that trouble turns the last executed step, unless it failed, into UNKNOWN; PASS*, at most one FAIL or UNKNOWN, NOT_RUN*; any interruption and any reached step judged FAIL or UNKNOWN exit nonzero even with omissions allowed; artifact errors are exactly those of the transcript and of a failed session without steps; strict zero means every step was judged PASS |
| Verdict.RecordsShowTrouble | tools/tca9548a_hil.py:449-459 | trouble, and a reached step judged anything but PASS, leave a FAIL or an UNKNOWN among the results |

## Left out

- Electrical behaviour, STOP semantics, bus timing, USB and SDK calls: they are the unrestricted answers of the environment.
- Wording, ANSI colours and their removal, help, `version`, `cfg`, `bus` and verbose rows: session output is structured rows; only health rows, discard messages and numerals are modelled as characters.
- The runner's regular expressions over session rows: stated on the structured rows, with the same counts, bounds and failure conditions. The reader of health rows is written out as a parser on lines; white space beyond Latin-1 is not modelled, and each status message is taken to be a single line.
- The command tokenizer: a line arrives already classified (`Command`), and a token it echoes is known only by which of the runner's patterns it matches; commands that drive the chip at once, among them `read`, `mask`, `enable`, `begin` with its presence probe, `selftest` and `hil`, are arbitrary sequences of driver calls, which include every path such a command takes.
- The `hil` self-check report (`runHil`, `runHilMaskChecks`) and the `cfg`, `hil`, `verbose` and single-operation arms of `classify`: per-command case lists.
- `run_soak`: it repeats stress commands whose acceptance is covered by the stress results.
- Physical transfer counters (`TransferStats`, `xfer_*`), driver settings snapshots and the `timeout`, `resettimeout` and `offline` settings: plain stores.
- `ChannelMask` operators, `addressFromPins`, and the tables of code names and numbers beyond the alarming names: finite enumerations.
- The timestamps of health: printed only; the clock values are parameters.
- Verbose rows of stress, mix, sweep and soak: off by default, they match no pattern.
- The platform's own version rows: taken to match no pattern of the runner.
- Cli.Console.StartRun: the clock is read as a parameter, one value per read.
- Cli.Console.ProcessCommand: the rows of a line handled while idle are not recorded, because the rows are the printout of the latest session, from the line that started it to its prompt.
- Cli.Console.KeepSample: the sample row that `verbose` adds to a soak is not modelled; that of a watch is.
- Cli.Console.CountAnswer: phase, address and the 16-bit counters of a session are natural numbers; the invariants bound them by the 112 addresses of a scan.
- ConsoleOutput.Queue.Drain: the backend is its answer; the callback is not an object.
- SerialLink.SerialRunner.Exchange: the firmware is a function that answers lines in order, each answer with one prompt at its end (`EngineRuns.OnePromptPerIdleLine` shows the one prompt on the engine; the texts are not derived from it), and the runner's random token does not occur in the answer it frames; deadlines, write failures and which reads are sure to deliver are parameters. Characters stand for decoded bytes.
- MaskProcedures.Bench.Checked: what the chip holds after a refused command is arbitrary; what a done command reports is faithful, and the addresses visible under a control byte are a fixed function of it.
- Reports, bundles, hashing, argument parsing, Git provenance and repository checkers: plumbing around these results.
