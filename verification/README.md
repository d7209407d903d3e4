# A Dafny model of the SteamOS Manager daemons

SteamOS Manager is a pair of D-Bus daemons, one running as root and one in the user's
session. Most of it passes calls on. The parts modelled here keep state over time, often
the same fact in two places, and promise something that only shows over a whole run:

- **DownloadMode, TdpService, Hwmon**: the service that overrides the power limit and the fan
  while programs hold download handles, and puts both back afterwards.
- **AlibCodec, AlibScript, SerialOrder, TdpCache**: the power command of the GPD handhelds, the
  shell script that encodes it a second time, the filter for messages out of order, and
  the limit that both daemons cache because the hardware cannot be read.
- **SysfsWriter**: the coalescing writer of sysfs files with its one-permit wake-up.
- **Jobs, JobMirror**: child processes that clients pause, resume, cancel and wait for, and the
  table of jobs exported on the bus.
- **SessionDaemon, SessionCallers, SessionSettings**: the command channel of the user daemon,
  which the loop that drains it also posts to, and the session setters on top of it.
- **Registry**: remote implementations of interfaces, as generated by the macros.
- **Json, OrcaSettings**: the screen reader's settings file and the fields that mirror it.
- **UnitName, Text**: escaped unit names, numbers as text.

`dafny verify dfyconfig.toml` checks the whole project.

## How it is built

Each state machine is a value `State` with a function that gives the state after one
event, and a class with the fields and methods of the source whose contracts equal that
function. The properties are lemmas over traces: sequences of events of any length, in any
interleaving. The outside world answers through parameters. A call that changes something
ends as `Done`, `Refused` (no effect) or `Lost` (it took effect but was reported as failed),
so every property says which failures it bears.

Where a hoped-for property is false of the code, the model keeps the code, shows an input
for which it fails, and says exactly when it holds:

- a refused restore keeps the saved limit, and a later update or session puts it back over a
  newer client limit (`FailedRestoreOverridesNewerLimit`, `ShowsIdealIff`); one sound
  update from any reachable state settles the service again (`OneUpdateSettles`);
- an entry whose override is refused is counted but shows the old limit
  (`RefusedEntryShowsOldLimit`, `ShowsIdealIff`);
- fan control is lost for good when its restart is refused, since the flag is dropped all
  the same, and when a stop took effect but was reported as failed, since the next update
  takes the stopped fan for the way it was (`MisreportedStopLosesFan`, `FanIsKeptIff`);
- a limit above 4294 W cannot be read back from hwmon (`GetAfterSet`);
- the root daemon answers `Ok` to a message it discards, and the user daemon then believes
  a limit that nobody applied (`StaleSerialSplitsCaches`, `StaysCoherentIff`);
- with any two paths in use the sysfs writer can strand a value with nobody left to wake it
  (`TwoPathsStrand`, `NeverStrandsIff`);
- a resume, be it a client's or part of `cancel` or `wait`, clears `paused` even when its signal was not delivered, and a wait can then hang
  (`LostContinueHangs`, `WaitsAlwaysEndIff`);
- an export whose announcement fails is not recorded and is exported again
  (`FailedAnnouncementExportsTwice`, `ExportsAreAccounted`);
- a new session state with ten messages behind it blocks the daemon on its own channel
  (`StuckIff`), which ten callers can bring about and nine cannot (`NeverBlocksIff`);
- a root call reported as failed although it took effect separates SDDM's default session
  from the session state (`MisreportedCallSplits`, `SetModeAgreesIff`);
- the task that brings a configured remote back ends with the first load or unload that
  fails, and a bus name that appears and vanishes at once is enough for that
  (`VanishingEndsWatch`, `ServedOnceItAppearsIff`);
- an owner that registers while the daemon serves its name keeps a slot that it cannot
  give up, since what is not served cannot be removed (`LeavingUndoesRegisteringIff`);
- names with characters above U+00FF can share an escape (`EscapeCollides`, `RoundTripIff`).

In one place a comment of the source differs from its code: the comment on `pause`
(steamos-manager/src/job.rs:242-243) speaks of returning true or false, while the method
returns an error, and sets `paused` whether or not the signal was sent. The model follows
the code.

## Model

| member | source | states |
|---|---|---|
| DownloadMode.HandlesCountTasks | steamos-manager/src/power.rs:1011-1018 | in every reachable state, failed entries included, the count of each identifier is the number of its waiter tasks, no count is zero, and the map is empty exactly when no task runs |
| DownloadMode.StepObeys | steamos-manager/src/power.rs:936-1000 | for every event and all answers: at most one limit is written, it is the download limit if a handle is open and else the client's or the saved one; the saved limit appears only with a handle open as the value just read, never changes while present, and goes only after its own successful write with no handle open |
| DownloadMode.EveryWriteIsExplained | steamos-manager/src/power.rs:1041-1069 | over every run, failures included, each limit written while a handle is open is the download limit, and any other was asked for by a client or read from the hardware earlier in that run |
| DownloadMode.SavedLimitWasRead | steamos-manager/src/power.rs:966-970 | a saved limit was read by an event of the run that left a handle open with nothing saved before, and has stayed saved since |
| DownloadMode.TouchesOnlyWhenActive | steamos-manager/src/power.rs:936-950 | other than by a client's own limit, the hardware and what is remembered of it change only while limiting is configured, active and readable, and only by an entry, an update or the closing of the last handle |
| DownloadMode.ClientLimitIff | steamos-manager/src/power.rs:1064-1068 | a client's limit goes to the hardware exactly while no handle is open, and nothing else changes |
| DownloadMode.LimitIsSaved | steamos-manager/src/power.rs:952-972 | an entry or an update of an open session saves the limit read unless one is saved, even if the override fails; otherwise an update gives the saved one up exactly when it was written back |
| DownloadMode.CallsInOrder | steamos-manager/src/power.rs:952-996 | no limit is overridden with itself, a failed limit write leaves the fan alone, and the fan's speed is set only once the fan is known to be stopped |
| DownloadMode.EntryIsAnswered | steamos-manager/src/power.rs:1002-1019 | an entry gets its handle exactly when download mode is configured and the calls it makes succeed, those of the fan counting only where a fan speed is configured |
| DownloadMode.LimitRefinesIdeal | steamos-manager/src/power.rs:936-1019 | every sound run refines a two-field ideal: the hardware limit is the download limit while a handle is open and otherwise the last limit set while none was, so the last close restores the limit in force at the first open |
| DownloadMode.ClientsAreToldIdeal | steamos-manager/src/power.rs:1069-1088 | in every sound run a client that asks is told the ideal limit, and every handle as often as it is open |
| DownloadMode.QueriesAreAnswered | steamos-manager/src/power.rs:1069-1088 | in every reachable state, failures included, a query is answered with what the hardware says, errors passed on, or with the number of waiter tasks of each identifier |
| DownloadMode.EntriesGetHandles | steamos-manager/src/power.rs:1002-1019 | in every sound run an entry gets its handle exactly when the pipe and, with a fan speed configured, the fan calls work |
| DownloadMode.OneUpdateSettles | steamos-manager/src/power.rs:936-1000 | after any run, however many calls failed, one sound update brings the service back into the states from which the refinement holds |
| DownloadMode.ShowsIdealIff | steamos-manager/src/power.rs:936-1000 | from any state, every sound run that follows shows clients the ideal limits exactly when the download limit is in force, if a handle is open, and no limit is left over from a failed restore, if none is |
| DownloadMode.FailedRestoreOverridesNewerLimit | steamos-manager/src/power.rs:952-957 | a concrete run in which a refused restore later overrides a client's newer limit |
| DownloadMode.RefusedEntryShowsOldLimit | steamos-manager/src/power.rs:1002-1019 | a concrete entry that is answered with an error, stays counted, and leaves the old limit in force until an update succeeds |
| DownloadMode.FanReturns | steamos-manager/src/power.rs:958-992 | over every run with working limit and fan-state calls the fan is in firmware control while a handle is open and in its starting state otherwise, and the restart flag is set exactly when it was taken from the system |
| DownloadMode.FanSpeedIsHeld | steamos-manager/src/power.rs:974-996 | if setting the speed works too, the fan turns at the configured speed in every state with a handle open |
| DownloadMode.FanIsKeptIff | steamos-manager/src/power.rs:958-996 | over every sound run from running fan control, whatever fan calls fail: fan control runs whenever no handle is open exactly if no stop took effect while reported as failed and no restart was refused; once lost it stays lost |
| DownloadMode.MisreportedStopLosesFan | steamos-manager/src/power.rs:974-987 | a concrete run without a refused restart that ends idle with fan control stopped |
| TdpService.Hardware.SetTdpLimit | steamos-manager/src/power.rs:1041-1060 | the limit changes unless the call is refused, and every attempt is logged |
| TdpService.TdpManagerService.constructor | steamos-manager/src/power.rs:904-934 | a service without handles, saved limit or restart flag |
| TdpService.TdpManagerService.UpdateDownloadMode | steamos-manager/src/power.rs:936-1000 | new state and result are those of `UpdateMode`, for all answers |
| TdpService.TdpManagerService.GetDownloadModeHandle | steamos-manager/src/power.rs:1002-1019 | the state after `Enter` and the reply: none when download mode is not configured, the handle exactly when pipe and update succeed; an entry answered with an error still has its waiter task |
| TdpService.TdpManagerService.HandleCommand | steamos-manager/src/power.rs:1062-1093 | the state after the command, a limit being ignored while a handle is open, and the reply to its sender |
| TdpService.TdpManagerService.HandleClosed | steamos-manager/src/power.rs:1121-1136 | the state after a waiter task ended, with an update when it was the last |
| TdpService.TdpManagerService.Handle | steamos-manager/src/power.rs:1099-1143 | one round of the loop |
| TdpService.TdpManagerService.RunLoop | steamos-manager/src/power.rs:1099-1145 | the loop over any sequence of commands and ended tasks reaches the state `Run` gives for it |
| Hwmon.GetAfterSet | steamos-manager/src/power.rs:515-545 | reading back a written limit gives it up to 4294 and fails above, whatever white space follows |
| Hwmon.ReadsAreSoundIff | steamos-manager/src/power.rs:515-523 | a working update of the download-mode service over this manager is sound exactly up to that bound |
| AlibCodec.PayloadBuffer.AppendAlibParam | steamos-manager/src/power.rs:471-474 | the buffer stays the encoding of its parameters, with one more |
| AlibCodec.BuildPayload | steamos-manager/src/power.rs:476-503 | fails exactly when one of four scaled products overflows u32, else gives 37 bytes that decode to the seven parameters in order |
| AlibCodec.DecodePayload | steamos-manager/src/power.rs:492-502 | decoding a payload of any number of parameters gives them back, and its header is its length |
| AlibCodec.PayloadOfDecoded | steamos-manager/src/power.rs:492-502 | bytes that decode are the payload of what they decode to: the encoding is unique |
| AlibCodec.ParseHexTextOfBytes | steamos-manager/src/power.rs:505-513 | parsing the hexadecimal text of any bytes gives them back |
| AlibCodec.CommandMeansParams | steamos-manager/src/power.rs:505-513 | the whole command text for a limit parses to its seven parameters |
| AlibCodec.CommandSetsScaledValues | steamos-manager/src/power.rs:476-513 | the command text parses to each limit, time and temperature in its own scale, unless one of these products does not fit 32 bits |
| AlibScript.MaskIsMod | data/tuned/gpd-set-tdp.sh:43 | masking with k ones is the remainder modulo 2^k |
| AlibScript.ShiftIsDiv | data/tuned/gpd-set-tdp.sh:44-46 | shifting right by k is division by 2^k |
| AlibScript.U32LeHexIsLeBytes | data/tuned/gpd-set-tdp.sh:40-47 | the script's shift-and-mask text is the text of the daemon's little-endian bytes |
| AlibScript.Params.Append | data/tuned/gpd-set-tdp.sh:53-60 | `PARAMS` stays the text of the pieces appended |
| AlibScript.ScriptCommand | data/tuned/gpd-set-tdp.sh:53-65 | the successive appends build the command `Script` describes |
| AlibScript.ScriptAgreesWithDaemon | data/tuned/gpd-set-tdp.sh:28-65 | for every wattage that does not overflow, script and daemon write the same command |
| SerialOrder.SerialOrderValidator.CheckHeader | steamos-manager/src/lib.rs:124-144 | accepts exactly fresh messages and remembers the serial exactly of those |
| SerialOrder.MemoryIsMaximum | steamos-manager/src/lib.rs:130-142 | over every trace the stored serial of a sender is the greatest it ever sent |
| SerialOrder.FreshIsRunningMaximum | steamos-manager/src/lib.rs:124-144 | a message is accepted exactly when it names its sender and exceeds every serial that sender used before |
| SerialOrder.SendersAreIndependent | steamos-manager/src/lib.rs:130-142 | filtering commutes with keeping one sender's messages |
| TdpCache.RootManager.Apply | steamos-manager/src/power.rs:586-599 | writes the command of an encodable limit in range and caches the limit exactly when the write succeeded |
| TdpCache.RootManager.SetTdpLimit | steamos-manager/src/manager/root.rs:469-487 | root's half of an exchange: `Ok` also for a discarded message |
| TdpCache.UserManager.SetTdpLimit | steamos-manager/src/power.rs:1041-1047 | the state of both daemons after an exchange: the user daemon caches the limit exactly when `Ok` reached it |
| TdpCache.UserManager.OtherCall | steamos-manager/src/manager/root.rs:345-353 | another filtered call moves the serials and nothing else |
| TdpCache.StaysCoherentIff | steamos-manager/src/power.rs:1041-1047 | an exchange keeps equal caches equal exactly when it is not one of another limit that only one daemon takes over |
| TdpCache.AlwaysCoherentIff | steamos-manager/src/power.rs:1041-1047 | over every run, whoever calls and whatever fails, the caches are equal at every moment exactly when there is no such exchange |
| TdpCache.CachesAgree | steamos-manager/src/manager/root.rs:469-487 | when all limits come from one sender whose serials grow over all its filtered calls and replies arrive, both caches hold the limit of the last acceptable request after every command, accepted, rejected or failed, whatever other senders do |
| TdpCache.StaleSerialSplitsCaches | steamos-manager/src/manager/root.rs:474-477 | a concrete stale message after which the caches differ |
| TdpCache.DeviceStaysInAgreementIff | steamos-manager/src/power.rs:593-597 | an exchange keeps root's cache and the hardware in agreement exactly when it is not a misreported write of other power values |
| TdpCache.HardwareHoldsTheCachedLimit | steamos-manager/src/power.rs:586-599 | once such a run had any acceptable request, and no write was misreported, the last command written parses to the parameters of the limit the user daemon caches |
| SysfsWriter.SysfsWriter.Insert | steamos-manager/src/sysfs.rs:44-53 | the locked part of `send`, answering the entry it displaces |
| SysfsWriter.SysfsWriter.NotifyOne | steamos-manager/src/sysfs.rs:54 | wakes a waiting receiver or stores the one permit |
| SysfsWriter.SysfsWriter.Notified | steamos-manager/src/sysfs.rs:59 | uses the permit or waits |
| SysfsWriter.SysfsWriter.Receive | steamos-manager/src/sysfs.rs:60-67 | takes some entry, or none exactly when there is none |
| SysfsWriter.SysfsWriter.AnswerWritten | steamos-manager/src/sysfs.rs:99-102 | records the write and answers its sender with its outcome |
| SysfsWriter.EverySendMeetsItsFate | steamos-manager/src/sysfs.rs:44-67 | for every interleaving and every send, the queue is exactly where the trace says: pending, in flight, or answered once and for good |
| SysfsWriter.FateInWords | steamos-manager/src/sysfs.rs:50-52 | a send is superseded exactly when a later send to its path comes before it is taken |
| SysfsWriter.SendsAreConserved | steamos-manager/src/sysfs.rs:44-67 | sends = pending + in flight + superseded + written |
| SysfsWriter.WritesAreOrdered | steamos-manager/src/sysfs.rs:88-103 | per path the writes finish in the order of their sends, and what waits is younger than what was written |
| SysfsWriter.LastWriterWins | steamos-manager/src/sysfs.rs:88-103 | when a path has nothing pending or in flight, its last write is its last send |
| SysfsWriter.PermitNeverSleeps | steamos-manager/src/sysfs.rs:50-67 | a stored permit never meets a sleeping receiver |
| SysfsWriter.NeverStrandsIff | steamos-manager/src/sysfs.rs:50-67 | for any set of paths: no run that sends to them strands a value exactly when the set has at most one path |
| SysfsWriter.OnePathNeverStrands | steamos-manager/src/power.rs:824-829 | in every run that sends to one path only, a pending value has a wake-up due |
| SysfsWriter.TwoPathsStrand | steamos-manager/src/sysfs.rs:50-67 | for any two paths, a run that sends to them only and ends with a pending value, a sleeping receiver and no wake-up due |
| SysfsWriter.StrandedUntilNextSend | steamos-manager/src/sysfs.rs:50-67 | a stranded value stays until somebody sends again |
| SysfsWriter.QuietRunsEnd | steamos-manager/src/sysfs.rs:57-103 | once nobody sends any more, a run ends within a number of steps the state bounds |
| SysfsWriter.OnePathDrains | steamos-manager/src/sysfs.rs:57-103 | with one path, a run that cannot go on without a new send has written everything and answered every send |
| Jobs.Child.Kill | steamos-manager/src/job.rs:190-200 | `send_signal`: fails without a pid, stops, continues or tells a live process to end |
| Jobs.Job.Pause | steamos-manager/src/job.rs:238-247 | new state and answer, the flag being set even when the signal fails |
| Jobs.Job.Resume | steamos-manager/src/job.rs:249-257 | new state and answer, the flag being cleared even when the signal fails |
| Jobs.Job.UpdateExitCode | steamos-manager/src/job.rs:202-212 | the exit code, or the negated signal |
| Jobs.Job.Cancel | steamos-manager/src/job.rs:259-272 | new state and answer: reap, or signal and resume |
| Jobs.Job.Wait | steamos-manager/src/job.rs:274-286 | new state and answer: resume, then the known code or a blocking wait |
| Jobs.WaitHangsIff | steamos-manager/src/job.rs:224-233 | a wait hangs exactly when the process is stopped, was not killed, and the job does not know it |
| Jobs.ActKnowsIff | steamos-manager/src/job.rs:249-286 | which events make a job lose track of a stopped process: exactly a resume, by a client, `cancel` or `wait`, whose signal is not delivered |
| Jobs.WaitsAlwaysEndIff | steamos-manager/src/job.rs:190-286 | over every run, whatever fails: at no moment would a wait hang exactly when no continue signal to a stopped process was lost |
| Jobs.StoppedIffPaused | steamos-manager/src/job.rs:238-286 | in every run whose signals are delivered, a live process is stopped exactly while the job is paused |
| Jobs.JobsNeverHang | steamos-manager/src/job.rs:238-286 | in every run whose signals are delivered no wait hangs, and after a successful cancel a process that still lives has the right signal and is not stopped |
| Jobs.LostContinueHangs | steamos-manager/src/job.rs:249-257 | a concrete run with an undelivered continue after which a wait hangs |
| Jobs.ExitCodeIsExit | steamos-manager/src/job.rs:202-233 | in every reachable state the code is known exactly when the process was reaped with one, and is its own |
| Jobs.ExitCodeIsWriteOnce | steamos-manager/src/job.rs:214-286 | once a wait has returned a code it stays, and every later wait that returns a code returns that one |
| Jobs.ReturnedCodeTellsTheEnd | steamos-manager/src/job.rs:202-212 | a returned code determines how the process ended |
| Jobs.LaterWaitsReturnIt | steamos-manager/src/job.rs:224-286 | over every run, once a wait returned a code every later wait is answered with it, whatever the system calls do, unless the job was paused again |
| Jobs.WaitReturnsIff | steamos-manager/src/job.rs:224-286 | in every run, a wait returns a code exactly when a paused job can be resumed and the code is known or the process can be waited for, is not left stopped, and ends with one; and exactly when it hangs |
| Jobs.CallsAreAnswered | steamos-manager/src/job.rs:238-272 | in every run, exactly when a pause, a resume and a cancel succeed |
| Jobs.PausedAfter | steamos-manager/src/job.rs:238-286 | in every run, the flag after each event, whatever fails |
| Jobs.CancelTakesCode | steamos-manager/src/job.rs:214-222 | canceling a job whose process has ended takes its exit code |
| JobMirror.JobManager.AddJob | steamos-manager/src/job.rs:96-108 | uses up a number in any case, exports, announces |
| JobMirror.JobManager.RunProcess | steamos-manager/src/job.rs:110-123 | a spawned process is added, a failed spawn changes nothing |
| JobMirror.JobManager.MirrorJob | steamos-manager/src/job.rs:125-150 | a recorded mirror is answered from the table, another is exported and recorded |
| JobMirror.JobManager.MirrorConnection | steamos-manager/src/job.rs:152-168 | the jobs of a connection are mirrored in order up to the first failure |
| JobMirror.JobManagerService.Handle | steamos-manager/src/job.rs:320-378 | one round of the loop, and which failures end it |
| JobMirror.KeyInjective | steamos-manager/src/job.rs:134 | the key `guid:path` determines guid and path |
| JobMirror.JobPathInjective | steamos-manager/src/job.rs:97-98 | a job's path determines its number |
| JobMirror.ExportsAreAccounted | steamos-manager/src/job.rs:96-168 | over every interleaving, failures included, exported paths are distinct, and a remote is exported once for its recorded mirror plus once for each export that was not announced |
| JobMirror.RepliesNameOneObject | steamos-manager/src/job.rs:134-149 | all replies for a remote name one object, and that object mirrors it |
| JobMirror.AnsweredOnceAndForAll | steamos-manager/src/job.rs:134-137 | once a remote was answered, every later request for it gets the same answer and changes nothing, whatever would have failed |
| JobMirror.NewMirrorIff | steamos-manager/src/job.rs:139-149 | in every reachable state an unrecorded remote is answered exactly when its calls succeed, with an object that mirrors it under a path never used before |
| JobMirror.ConnectionIsMirrored | steamos-manager/src/job.rs:152-168 | in every run, mirroring a connection records exactly the listed jobs before the first that cannot be mirrored, under their object paths, and the service goes on exactly if there is none |
| JobMirror.ListedJobIsExported | steamos-manager/src/job.rs:161-166 | each of these jobs is recorded with an export of that very remote |
| JobMirror.ListedJobIsAnswered | steamos-manager/src/job.rs:134-137 | whatever happens later, a request for such a job is answered with that export |
| JobMirror.NewProcessIff | steamos-manager/src/job.rs:96-123 | in every run, a spawned process uses up the next number in any case, and is answered with the object of that number exactly when it could be placed and announced |
| JobMirror.LoopGoesOnIff | steamos-manager/src/job.rs:320-378 | which failures end the service loop |
| JobMirror.MirroredExactlyOnce | steamos-manager/src/job.rs:125-150 | a remote without failed announcements is exported at most once, and exactly once after any reply |
| JobMirror.FailedAnnouncementExportsTwice | steamos-manager/src/job.rs:105-106 | a concrete run in which a remote is exported twice |
| SessionDaemon.StuckIff | steamos-manager/src/daemon/user.rs:119-123 | the loop blocks on its own send exactly when it takes a new state while more than ten messages are queued or waiting; no other round raises their number |
| SessionDaemon.LogicalIsLastSet | steamos-manager/src/daemon/user.rs:119-123 | in every run, memory with all queued changes applied is the last state sent |
| SessionDaemon.DrainedIsPersisted | steamos-manager/src/daemon/mod.rs:243-260 | when the channel of a running daemon drains, the disk holds the last state anybody sent |
| SessionDaemon.ReadsSeeEarlierWrites | steamos-manager/src/daemon/user.rs:124-126 | every read is answered with the last state sent before it, in any interleaving |
| SessionCallers.FewBehindAState | steamos-manager/src/manager/user.rs:1117-1164 | when a new state is at the head of the channel, only reads are behind it, one for each caller at most |
| SessionCallers.AcceptedAtOnce | steamos-manager/src/session.rs:241-248 | a setter's new state never waits for room in the channel |
| SessionCallers.FewCallersNeverBlock | steamos-manager/src/manager/user.rs:1117-1164 | in every run of getters and exclusive setters with at most nine callers, or with nobody who sets, the daemon never blocks |
| SessionCallers.BlockingRun | steamos-manager/src/daemon/user.rs:119-123 | with ten callers one of whom sets, a run from the start that blocks the daemon |
| SessionCallers.NeverBlocksIff | steamos-manager/src/daemon/mod.rs:265-270 | no run of a daemon from its start blocks it exactly when nobody sets or there are at most nine callers |
| SessionSettings.UserDaemon.Round | steamos-manager/src/daemon/user.rs:114-129 | one round of the daemon loop in place |
| SessionSettings.UserDaemon.GetState | steamos-manager/src/session.rs:231-239 | the answer is the state after all changes queued before it, and with room and working writes there is one |
| SessionSettings.SessionManager.WriteState | steamos-manager/src/session.rs:241-248 | the posted state is what clients see next |
| SessionSettings.SessionManager.SessionForMode | steamos-manager/src/session.rs:285-290 | the session for a mode under the state as clients see it |
| SessionSettings.SessionManager.SetDefaultSession | steamos-manager/src/session.rs:325-335 | SDDM's session changes unless the name has a line break or the call is refused |
| SessionSettings.SessionManager.SetDefaultLoginMode | steamos-manager/src/session.rs:276-283 | state and SDDM session after the setter, for all outcomes; success means the mode is set and nothing else |
| SessionSettings.SessionManager.SetDefaultDesktopSession | steamos-manager/src/session.rs:259-270 | state and SDDM session after the setter, for all outcomes, and exactly when it succeeds |
| SessionSettings.SetModeAgreesIff | steamos-manager/src/session.rs:276-283 | setting the mode keeps state and SDDM in agreement exactly when SDDM had the session already or both changes go through together |
| SessionSettings.SetDesktopAgreesIff | steamos-manager/src/session.rs:259-270 | the same for a valid desktop session, which in game mode never separates them |
| SessionSettings.AlwaysAgreeIff | steamos-manager/src/session.rs:259-290 | over every run of setters, whatever fails, SDDM's session is the one for the state at every moment exactly when no operation changed only one of them |
| SessionSettings.SettersKeepAgreement | steamos-manager/src/session.rs:259-290 | after every run of setters without misreported calls, SDDM's session is the one for the state, and the game session exactly in game mode |
| SessionSettings.MisreportedCallSplits | steamos-manager/src/session.rs:276-283 | a concrete misreported call after which they differ |
| SessionSettings.AcceptedNamesIff | steamos-manager/src/session.rs:106-117 | a desktop session is accepted by name exactly if it ends in .desktop, does not start with a dot and nowhere contains gamescope |
| SessionSettings.SddmIsTold | steamos-manager/src/session.rs:276-290 | which session a setter of the login mode tells SDDM, and exactly when the state changes with it |
| SessionSettings.DesktopIsRemembered | steamos-manager/src/session.rs:259-270 | a desktop session that is not valid or not installed changes nothing; in game mode a valid one is remembered and SDDM left alone |
| SessionSettings.NoLineBreakReachesSddm | steamos-manager/src/session.rs:325-335 | whatever clients ask for, no session name with a line break reaches SDDM's file |
| Json.PutSucceedsIff | steamos-manager/src/screenreader.rs:606-634 | an update fails exactly when something that exists on its way is not an object |
| Json.PutThenAt | steamos-manager/src/screenreader.rs:606-634 | what was put is found |
| Json.PutThenPut | steamos-manager/src/screenreader.rs:606-634 | a second update of a place overwrites the first |
| Json.PutWhatIsThere | steamos-manager/src/screenreader.rs:606-634 | putting back what is there changes nothing |
| Json.PutElsewhere | steamos-manager/src/screenreader.rs:606-634 | places neither above nor below are unchanged |
| Json.PutAbove | steamos-manager/src/screenreader.rs:606-634 | the places above are objects afterwards |
| OrcaSettings.SplitLanguage | steamos-manager/src/screenreader.rs:562-571 | the parts around the first hyphen |
| OrcaSettings.OptionSucceedsIff | steamos-manager/src/screenreader.rs:67-73 | an update is accepted exactly for the rate from 0 to 100 and the pitch and volume from 0 to 10, into a tree in which everything on the way is an object, and is stored under the default voice |
| OrcaSettings.EnabledSucceedsIff | steamos-manager/src/screenreader.rs:437-457 | the speech switch is accepted exactly when the tree and its general part are objects |
| OrcaSettings.UpdateShows | steamos-manager/src/screenreader.rs:286-319 | which field an accepted update of each setting changes |
| OrcaSettings.LoadedAtStart | steamos-manager/src/screenreader.rs:117-137 | a new manager shows the file's numbers and voice where they are well formed and the defaults elsewhere |
| OrcaSettings.ReloadedInPlace | steamos-manager/src/screenreader.rs:459-527 | what reading the file again keeps and what it resets |
| OrcaSettings.NumbersStayInRange | steamos-manager/src/screenreader.rs:591-599 | from a file in range, no run of operations, whatever fails, shows or stores a number out of range |
| OrcaSettings.OptionIsLoaded | steamos-manager/src/screenreader.rs:591-637 | from any tree and over any fields, the option reads back as the value written and everything else as before; what happens where the default voice had to be created is stated too |
| OrcaSettings.VoicePut | steamos-manager/src/screenreader.rs:529-589 | a voice update names the voice and leaves the numbers alone |
| OrcaSettings.VoiceIsStored | steamos-manager/src/screenreader.rs:562-585 | after a voice update the file holds the name, the language before the first hyphen, the dialect after it, the variant or null, and the established mark |
| OrcaSettings.VoiceElsewhere | steamos-manager/src/screenreader.rs:529-589 | everything apart from the five places written is unchanged |
| OrcaSettings.VoiceSucceedsIff | steamos-manager/src/screenreader.rs:529-589 | the voice update succeeds exactly when everything on the way to the family that exists is an object |
| OrcaSettings.EnabledPut | steamos-manager/src/screenreader.rs:437-457 | the speech switch is stored and nothing the manager shows is touched |
| OrcaSettings.OptionShows | steamos-manager/src/screenreader.rs:459-527 | after an option update a restarted manager reads what this one then shows |
| OrcaSettings.VoiceShows | steamos-manager/src/screenreader.rs:459-527 | after a voice update a restarted manager reads what this one then shows |
| OrcaSettings.StaysSyncedIff | steamos-manager/src/screenreader.rs:271-319 | an operation keeps the fields equal to what a restart reads exactly when it is not a misreported write of a valid new value into a well-formed tree |
| OrcaSettings.AlwaysSyncedIff | steamos-manager/src/screenreader.rs:271-319 | from any tree, at every moment of a run the fields are what a restart would read exactly when there was no such operation |
| OrcaSettings.FieldsShowTheFile | steamos-manager/src/screenreader.rs:271-319 | from any tree, after any operations without misreported writes, the fields are what a restart would read over its defaults, and reading again in place changes nothing |
| OrcaSettings.OrcaManager.LoadValues | steamos-manager/src/screenreader.rs:459-527 | the fields become what `Loaded` reads from the tree, malformed parts included |
| OrcaSettings.OrcaManager.SetOption | steamos-manager/src/screenreader.rs:591-637 | tree and fields after an option update; a malformed parent or invalid value leaves both untouched |
| OrcaSettings.OrcaManager.SetVoice | steamos-manager/src/screenreader.rs:529-589 | tree and fields after a voice update |
| OrcaSettings.OrcaManager.SetOrcaEnabled | steamos-manager/src/screenreader.rs:437-457 | the tree after the speech switch; the fields stay |
| Registry.ObjectServer.Register | steamos-manager/src/manager/user.rs:1390-1406 | places a remote object only where neither a local nor a remote one is served |
| Registry.RemoteManager.RegisterOwner | steamos-manager-macros/src/lib.rs:645-679 | server, owner and outcome after an owner registers, for all answers |
| Registry.RemoteManager.Register | steamos-manager-macros/src/lib.rs:866-914 | the slots and objects after a registration |
| Registry.RemoteManager.Load | steamos-manager-macros/src/lib.rs:603-621 | the slots and objects after a watched bus name got an owner; a failure ends the watch |
| Registry.RemoteManager.Unload | steamos-manager-macros/src/lib.rs:590-602 | the slots and objects after it lost its owner; a failure ends the watch |
| Registry.RemoteManager.Unregister | steamos-manager-macros/src/lib.rs:939-978 | the slots and objects afterwards; another sender changes nothing |
| Registry.ListingIsWhatIsServed | steamos-manager-macros/src/lib.rs:1007-1018 | over every run a remote object is served exactly for the slots that hold a registered owner, at its target, never beside a local one, and the listing is those names |
| Registry.ServedUntilUnregistered | steamos-manager-macros/src/lib.rs:939-978 | an object stays served at its target until its own remote or the daemon unregisters it or its bus name goes |
| Registry.LocalStays | steamos-manager/src/manager/user.rs:1390-1406 | whatever remotes do, a local object stays, with no remote one beside it, until the daemon takes it back |
| Registry.OwnerStays | steamos-manager-macros/src/lib.rs:879-894 | in every run, a slot that stays held keeps its owner and target |
| Registry.DeniedChangesNothing | steamos-manager-macros/src/lib.rs:953-959 | an unregistration by another sender, or one whose removal fails, changes nothing |
| Registry.SlotGivenUpIff | steamos-manager-macros/src/lib.rs:960-966 | a permitted unregistration gives up the slot unless it is transient and the owner configured, and nothing is served any more |
| Registry.OnlyKnownNames | steamos-manager-macros/src/lib.rs:877-913 | in every run, only known interfaces are registered or served |
| Registry.ServedIff | steamos-manager-macros/src/lib.rs:645-978 | over every run, a remote object is served for a name exactly when a working registration placed it and no permitted unregistration or unload has taken it away since |
| Registry.ServedOnceItAppearsIff | steamos-manager-macros/src/lib.rs:572-627 | in any run, a configured remote that is not there yet is not listed; when its bus name appears, however much later, it is served at its target exactly when it was already or no load or unload has failed since it took its slot |
| Registry.VanishingEndsWatch | steamos-manager-macros/src/lib.rs:590-621 | a concrete run: a bus name that appears and is gone before the ping ends the watch, and the remote is not served when it comes to stay |
| Registry.LeavingUndoesRegisteringIff | steamos-manager-macros/src/lib.rs:866-987 | registering into an empty slot and leaving again gives back the registry except when the remote was not there or the daemon serves the name; what is served, and nothing else, can be removed |
| Registry.NamesAreIndependent | steamos-manager-macros/src/lib.rs:866-987 | what a run leaves for a name is what the events about that name alone leave for it |
| Registry.ComingBackRestores | steamos-manager-macros/src/lib.rs:916-987 | a watched configured remote that leaves the bus and comes back restores the registry exactly |
| UnitName.Escape | steamos-manager/src/systemd.rs:265-276 | the loop computes `Escaped` |
| UnitName.RoundTripIff | steamos-manager/src/systemd.rs:265-276 | unescaping gives a name back exactly when all its characters are at most U+00FF |
| UnitName.EscapedConcat | steamos-manager/src/systemd.rs:265-276 | escaping distributes over concatenation |
| UnitName.EscapedUnchangedIff | steamos-manager/src/systemd.rs:268-269 | exactly the names of ASCII letters and digits are left as they are |
| UnitName.EscapedInPlace | steamos-manager/src/systemd.rs:267-274 | wherever it stands, any other character up to U+00FF becomes an underscore and the two lower-case hexadecimal digits of its value |
| UnitName.EscapedInjective | steamos-manager/src/systemd.rs:265-276 | such names with equal escapes are equal |
| UnitName.EscapedIsPathElement | steamos-manager/src/systemd.rs:265-276 | the escape is a legal path element of the D-Bus Specification ("Valid Object Paths") exactly for a nonempty name |
| UnitName.EscapeCollides | steamos-manager/src/systemd.rs:265-276 | two names above the bound share the escape `_100` |

## Left out

- TdpService.TdpManagerService.RunLoop: takes its commands and ended tasks as a finite sequence; which of two ready ones `select!` takes is the order in that sequence, the closing of the channel and a task that ends abnormally are not modelled.
- TdpService.TdpManagerService.HandleCommand: `GetTdpLimitRange` reads configuration only and is left out; `SetProxy` counts as a change made by someone else.
- Hwmon.GetAfterSet: the kernel returns the text it was given, followed by white space; rounding by the driver and power2_cap are not modelled.
- AlibScript.ScriptCommand: the script's check of its argument and of the kernel module comes before and is not modelled.
- TdpCache.HardwareHoldsTheCachedLimit: no other program writes the ALIB command.
- Jobs.JobsNeverHang: nobody but the job stops or continues its process; process identifiers that do not fit `pid_t` are not modelled.
- JobMirror.JobManager.MirrorJob: building a proxy either works or fails; the pause, resume, cancel and wait calls that a mirror forwards are not modelled.
- SessionCallers.FewCallersNeverBlock: counts callers of the session manager, each in one call at a time; reloads of the configuration through the same channel are excluded, and so are the calls a setter makes between its reads and its new state.
- SessionSettings.UserDaemon.GetState: runs the daemon loop to the answer while nobody else sends; interleaved senders are the subject of SessionDaemon.
- OrcaSettings.OrcaManager.SetOption: the JSON tree is rebuilt as a value instead of edited in place, a file that is missing or does not parse shows as a refused write, and numbers are reals; reloading the screen reader afterwards is not modelled.
- Registry.RemoteManager.Unregister: `remove` takes away the remote type only, and whether it succeeds is an answer of the object server; the custom registration hooks of TdpLimit1 are not modelled.
- The wrap-around of handle counts and job numbers at 2^32, and the D-Bus signals that tell clients of changes.
- Waiter tasks end in their own time: the readiness of their pipes is not modelled.
- Senders waiting for room in a channel are served in order; real time, fairness and cancellation are not modelled.
- Temporary sessions, logging out, the loop that follows the session's unit, gsettings, the keyboard and the list of voices.
- GPU, CPU, battery, fan curve, HDMI-CEC, audio, Wi-Fi, storage and update calls, device and platform files, and the command-line client: mappings and short scans that would only add easy members.
- D-Bus transport, proxies, the object server's internals and all file and process input and output: they answer through parameters.
