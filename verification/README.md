# n5-fangov: a verified model of the fan controller

n5-fangov is a guarded fan controller daemon for a NAS board. This project models the parts of it
that carry a promise: the regulation loop with its ceilings, failsafe and stop; the tiered history;
the version order; schedules; the validation run against the embedded controller; the in-place
editing of the config file; the preset merge; and the SMBIOS walker.

Code of the repository that updates its state in place is a class or a method here, with the loops
of the original, and is proved against a function of the old state and the inputs. What the
repository promises is proved about those functions: over every input, every run of events or every
interleaving. Sensor readings, tach values, write outcomes, clocks, cancellation and the answers of
the machine are arbitrary inputs.

| file | module | models |
|---|---|---|
| `Curve.dfy` | `Curves` | curve interpolation and slew |
| `Channel.dfy` | `Channels` | one channel of the loop, step by step |
| `Sanitize.dfy` | `Sanitizing` | the N5 Pro channel corrections |
| `Controller.dfy` | `Control` | one regulation cycle, overrides, reload |
| `LoopRuns.dfy` | `LoopRuns` | the loop invariant and channel identity over runs |
| `CeilingRuns.dfy` | `CeilingRuns` | the ceiling latch and the emergency hook over runs |
| `DeviceLost.dfy` | `DeviceLoss` | when the device is given up |
| `Settling.dfy` | `Settling` | regulation comes to rest; the min_on bounds |
| `StopRace.dfy` | `StopRace` | Stop against the loop, every interleaving |
| `History.dfy`, `HistoryRuns.dfy` | `History`, `HistoryRuns` | the tiers, their refinement of plain grouping, restarts |
| `Debver.dfy` | `Debver` | the Debian version order |
| `Schedule.dfy`, `Scheduler.dfy` | `Schedule`, `Scheduling` | the active entry, the next change, the ticker |
| `Eval.dfy`, `Runner.dfy` | `Eval`, `Running` | hand-back verdicts and the validation run |
| `Lines.dfy`, `SetKey.dfy` | `Lines`, `SetKeys` | one-key edits of the config text |
| `TomlReader.dfy`, `SetKeyLaws.dfy`, `SetKeyTwice.dfy`, `SetKeyMisses.dfy` | of the same names | a reader of its own, the get/put laws of the edits, and texts the edit misses |
| `ReplaceChannels.dfy`, `ReplaceLaws.dfy` | `ReplacingChannels`, `ReplaceLaws` | replacing the channel tables |
| `Merge.dfy` | `Merging` | the preset merge and the reload after it |
| `Smbios.dfy` | `Smbios` | the structure table walker |

`Texts.dfy`, `Numbers.dfy` and `Wrappers.dfy` hold small shared helpers. Source lines below are
relative to the root of the n5-fangov repository.

Some statements hold only under a condition, and the condition is proved exact:

- An edit by SetKey does what it is for, whatever the value, iff it found everything that defines the
  key and its section and stands between two values (`SetKeyLaws.GetAfterSet`). It does not see a
  header written `[ a ]` or with a tab before its comment, a quoted key, an inline table, dotted keys
  above a header, or a key that is a table, and it replaces one line of a value that has several; the
  daemon sets `sensors` of `[dashboard]`, which an operator may have written over several lines. Such
  texts are in `SetKeyMisses`; the callers parse the result and refuse it when the parse fails.
- A restart keeps the open bucket's sums iff some raw point of it is left at load and every one that
  is not left is blank (`HistoryRuns.RestartExactlyWhenKept`; a run that loses one:
  `HistoryRuns.RestartLoses`).
- A manual duty on a disk channel stays at 60 or more iff no reload makes a disk channel of one that
  has a lower override: only setting an override checks the minimum (`LoopRuns.MinimumExactly`;
  such a reload: `LoopRuns.TighteningReload`).
- ReplaceChannels is a no-op the second time iff the channel text has no line outside its blocks; the
  blank line the encoder puts between two channels is one (`ReplaceLaws.TextIdempotentExactly`,
  `ReplaceLaws.TwoChannelsGrow`).

The comment of `Apply` in `cmd/n5-fangov/wiring_presets.go` says that a restart is only asked for
when the preset names a pwm the config lacks. The code also asks for one when the daemon's own
channel names are not unique, which `SanitizeChannels` can cause by naming a built-in `pwm<N>`
without looking at the names in use (`Sanitizing.NameReused`); `Merging.PresetNeedsNoRestart` states
exactly that.

## Model

| member | source | states |
|---|---|---|
| `Curves.Interpolate` | internal/control/controller.go:1499-1523 | The segment search finds the duty of the curve at a reading; an empty curve gives 255. |
| `Curves.DutyBetween` | internal/control/controller.go:1499-1523 | Between two neighbouring points the duty is the nearest integer to the exact line, within the duties of the two points. |
| `Curves.DutyExact` | internal/control/controller.go:1499-1523 | An accepted curve is exact at its points, constant beyond its ends, and always a duty. |
| `Curves.DutyMonotone` | internal/control/controller.go:1499-1523 | On every curve ValidateCurve accepts, a hotter reading never gets a lower duty. |
| `Curves.SlewApproaches` | internal/control/controller.go:1573-1582 | A slew step never overshoots and closes the gap by the step or all of it. |
| `Channels.Channel.Read` | internal/control/controller.go:646-680 | A read retries an unresolved sensor, refuses implausible values and keeps the last good parts on failure. |
| `Channels.Channel.RecheckAndTach` | internal/control/controller.go:702-728 | A resolved sensor without a reading is resolved again; the tach value or -1 is taken. |
| `Channels.Channel.HottestPart` | internal/control/controller.go:849-862 | Finds a part at its ceiling iff there is one, namely one that exceeds its own ceiling by most; tells exactly whether every part is clear. |
| `Channels.Channel.JudgeCeiling` | internal/control/controller.go:873-896 | Enters, keeps or leaves the ceiling state by the readable parts; in it the target is 255 and a hold ends. |
| `Channels.Channel.RunEmergency` | internal/control/controller.go:915-933 | The hook fires when a stopped fan meets emergency_cycles, or after three times that, and not again. |
| `Channels.Channel.Hold` | internal/control/controller.go:1530-1540 | The held temperature follows the reading only when it moved by the hysteresis. |
| `Channels.Channel.HoldMinOn` | internal/control/controller.go:1549-1570 | The min_on hold: started by a rise, restarted by a higher one, ended by time. |
| `Channels.Channel.SetTarget` | internal/control/controller.go:759-801 | The whole target rule of a cycle: sensor error, curve, hold, override, critical, ceiling. |
| `Channels.Channel.WatchFan` | internal/control/controller.go:1034-1067 | Stall detection and recovery counters, and the target 255 of a stalled fan. |
| `Channels.Channel.Write` | internal/control/controller.go:1126-1158 | Slew, the decision to write, and the duty after a successful or failed write. |
| `Channels.Channel.FullSpeed` | internal/control/controller.go:1329-1351 | The failsafe of one channel: target 255, duty 255, or unknown after a failed write. |
| `Channels.Channel.Swap` | internal/control/controller.go:1789-1825 | A config swap: a changed sensor id drops what was judged on the old reading, a changed min_on moves a running hold. |
| `Sanitizing.SanitizeChannels` | internal/control/controller.go:462-493 | The loop over the built-ins gives the corrected channels. |
| `Sanitizing.SanitizeGuards` | internal/control/controller.go:462-493 | On the N5 Pro pwm 1..3 are managed, the given channels stay in front, and pwm3 is never handed back to the chip. |
| `Sanitizing.SanitizeById` | internal/control/controller.go:462-493 | The identities of the corrected channels depend on the given identities alone. |
| `Sanitizing.SanitizeUnique` | internal/control/controller.go:462-493 | The corrections never put two channels on one pwm. |
| `Sanitizing.NameReused` | internal/control/controller.go:462-493 | A concrete config with unique names whose corrected channels share a name. |
| `Control.Controller.Apply` | internal/control/controller.go:1701-1725 | A reload waits as pending exactly when it has the profile and the same channel set as the base; otherwise nothing changes. |
| `Control.Controller.Override` | internal/control/controller.go:1628-1649 | An override is stored exactly when the duty is in range, the channel exists and a disk channel keeps its minimum; else the error says why. |
| `Control.Controller.Clear` | internal/control/controller.go:1652-1662 | Clearing removes the override of a known channel. |
| `Control.Controller.SwapPending` | internal/control/controller.go:1729-1770 | A pending config reaches every channel by name, and a changed first sensor restarts the frozen-sensor check. |
| `Control.Controller.ReadAll` | internal/control/controller.go:644-752 | The read phase over all channels, with the frozen-sensor check on the first. |
| `Control.Controller.SetTargets` | internal/control/controller.go:759-801 | The target and stall phases over all channels. |
| `Control.Controller.WritePhase` | internal/control/controller.go:1126-1158 | The write phase touches nothing once stopped, and reports exactly whether a write failed and whether one succeeded. |
| `Control.Controller.FailsafeAll` | internal/control/controller.go:1329-1351 | The all-channel failsafe, and exactly when it could not write anything. |
| `Control.Controller.NoteFailsafe` | internal/control/controller.go:1162-1174 | The counter of silent failsafes and the lost verdict at six. |
| `Control.Controller.WriteAndFinish` | internal/control/controller.go:1073-1100 | Write, error counters, failsafe after two error cycles, and whether the device is lost. |
| `Control.Controller.RunCycle` | internal/control/controller.go:607-635 | One whole cycle over the heap of channels is the function Cycle of the state and the inputs, Stop coming before either hardware part. |
| `LoopRuns.StartOK` | internal/control/controller.go:305-376 | The state New builds, restored overrides and a name repeated by the corrections included, meets the loop invariant. |
| `LoopRuns.NeverAccepted` | internal/control/controller.go:1827-1842 | Against a config that repeats a name no reload is ever accepted. |
| `LoopRuns.AcceptedHolds` | internal/control/controller.go:1827-1842 | An accepted channel set still has every running channel under its name and pwm. |
| `LoopRuns.StepKeeps` | internal/control/controller.go:607-635 | Every event keeps the invariant: duties in range, every channel in the active and pending config. |
| `LoopRuns.RunKeepsIdentity` | internal/control/controller.go:1701-1804 | Over any run of cycles, overrides, stops and reloads no running channel changes name or pwm, and every duty stays a duty. |
| `LoopRuns.StartKeepsIdentity` | internal/control/controller.go:305-376 | The same from every state New builds. |
| `LoopRuns.OverrideNeverBreaks` | internal/control/controller.go:1628-1649 | With one channel of each name the check of an override keeps the minimum of a disk channel. |
| `LoopRuns.MinimumExactly` | internal/control/controller.go:1628-1804 | Over any run a manual duty on a disk channel stays at 60 or more iff no reload turns a channel into one under a lower override and none is set through a shared name. |
| `LoopRuns.TighteningReload` | internal/control/controller.go:1729-1804 | Such a reload: stop auto becomes a fixed duty while an override of 30 is set. |
| `CeilingRuns.CeilingStep` | internal/control/controller.go:873-896 | Exactly when a cycle leaves a channel in the ceiling state, and that it then ends at full speed. |
| `CeilingRuns.CeilingLatch` | internal/control/controller.go:759-801 | Once a good reading has a part at its ceiling, every later state has target 255 and duty 255 or unknown (unless stopped or dry run), through errors, overrides, stalls, reloads and failing writes, until a reading clears all parts or a reload changes the sensor id. |
| `CeilingRuns.HookOncePerEpisode` | internal/control/controller.go:915-933 | Over any run the emergency hook fires at most once per ceiling episode. |
| `CeilingRuns.HookRunsInTime` | internal/control/controller.go:915-933 | In an uninterrupted episode it has fired after three times emergency_cycles. |
| `DeviceLoss.CounterIsTrailing` | internal/control/controller.go:1162-1174 | Over any run the failure counter is the number of immediately preceding cycles whose failsafe wrote nothing. |
| `DeviceLoss.LostExactlyAfterSixSilent` | internal/control/controller.go:1073-1100 | A cycle reports the device lost iff it is the last of six consecutive cycles whose failsafe could not write any channel. |
| `DeviceLoss.LostWithinTwelve` | internal/control/controller.go:1073-1174 | If no write succeeds any more, at most twelve cycles pass before the device is reported lost, whatever overrides and reloads come in between. |
| `Settling.QuietStep` | internal/control/controller.go:607-635 | What a cycle does when only the curve acts on a channel. |
| `Settling.HeldChangesAtMostOnce` | internal/control/controller.go:1530-1540 | While readings stay in a band narrower than the hysteresis the held temperature changes at most once, never from inside the band. |
| `Settling.RegulationSettles` | internal/control/controller.go:1573-1582 | With an unchanged held temperature the duty is the curve value after ceil(255 / min(step_up, step_down)) cycles and stays. |
| `Settling.SettlesInBand` | internal/control/controller.go:1499-1582 | The two together: once held in the band, the duty reaches the curve value in that time and stays there. |
| `Settling.HoldOrigin` | internal/control/controller.go:1549-1570 | A hold that is on was started by a rise less than min_on ago and ends min_on after it: none outlives min_on. |
| `Settling.HoldLasts` | internal/control/controller.go:1549-1570 | A started hold keeps the output at its value for min_on. |
| `Settling.MinOnBounds` | internal/control/controller.go:1549-1570 | Each output is at least the current curve value and every hold started less than min_on ago, and is one of the curve values of the last min_on. |
| `Settling.HoldOfRun` | internal/control/controller.go:759-801 | Over a run of cycles the hold of a channel is the hold of its curve values and their times. |
| `Settling.MinOnOverRun` | internal/control/controller.go:759-801 | The min_on bounds for the target of a cycle at the end of any run of cycles with good readings and no ceiling, override or reload. |
| `StopRace.InvOverRun` | internal/control/controller.go:1126-1158 | Every interleaving of loop, config swap, panic and Stop keeps the lock discipline, whole configs and the shape of the command log. |
| `StopRace.StopWins` | internal/control/controller.go:1361-1389 | In every interleaving no duty is written after Stop has begun writing, and when it returns the last command on every channel is its safe stop from one complete config. |
| `StopRace.SilentAfterLock` | internal/control/controller.go:1361-1389 | From the moment Stop has the mutex nothing written by the loop enters the log. |
| `StopRace.StopNeverBlocked` | internal/control/controller.go:1361-1389 | No deadlock: until Stop has returned some step is enabled that brings its end nearer. |
| `History.RawCapacity` | internal/history/history.go:49-58 | The largest number of raw points that fit into the raw span, at least one. |
| `History.BucketStartAligned` | internal/history/history.go:361-363 | A bucket starts at the largest multiple of its width not above the timestamp, before 1970 too. |
| `History.BucketStartMonotone` | internal/history/history.go:361-363 | Bucket starts follow the timestamps. |
| `History.Acc.Add` | internal/history/history.go:318-334 | A point joins the sums of all its series; a negative duty does not. |
| `History.Tier.CloseOpen` | internal/history/history.go:390-400 | The open bucket's mean is appended and the oldest points beyond the capacity are dropped. |
| `History.Tier.Push` | internal/history/history.go:369-388 | The incremental push: join, close and open, or reopen the last bucket. |
| `History.Tier.AllPoints` | internal/history/history.go:403-410 | The closed points and the mean of the open bucket. |
| `History.Tier.Load` | internal/history/history.go:415-443 | Trim by age and capacity, then rebuild the last bucket from the raw points. |
| `History.Store.Push` | internal/history/history.go:119-127 | A push reaches the raw tier, trimmed, and both averaged tiers. |
| `History.Store.SetInterval` | internal/history/history.go:102-108 | A new interval sets the raw capacity and trims. |
| `History.Store.Range` | internal/history/history.go:140-160 | Exactly the points of the tier for the span that are in the window and after since, in order. |
| `History.Store.Save` | internal/history/history.go:175-200 | The file holds the raw points and what both tiers read. |
| `History.Store.Load` | internal/history/history.go:206-235 | Load trims the raw tier first and rebuilds both tiers from it. |
| `HistoryRuns.GroupsPartition` | internal/history/history.go:369-388 | The groups partition the points in order; each point is in the group of the latest bucket reached so far; starts are aligned and strictly ascending. Clock steps back included. |
| `HistoryRuns.AccumulatedMean` | internal/history/history.go:318-359 | The mean of the accumulated sums is the mean of the group's points, key by key. |
| `HistoryRuns.TierIsGroups` | internal/history/history.go:369-400 | After any pushes a fresh tier holds the means of the last closed groups and the sums of the open one. |
| `HistoryRuns.AllIsGroupMeans` | internal/history/history.go:369-410 | Refinement: what a tier reads is exactly the grouped and averaged points, the last capacity closed groups and the open one. |
| `HistoryRuns.RestartExactlyWhenKept` | internal/history/history.go:415-443 | A load of what was saved continues the tier, the same open sums and every closed point up to the span and capacity trim, iff some raw point of the open bucket is left and every one that is not is blank. |
| `HistoryRuns.RestartLoses` | internal/history/history.go:206-235 | A concrete run in which a restart loses part of a bucket. |
| `HistoryRuns.RestartForever` | internal/history/history.go:369-443 | A tier that continues after a load does so after every further push: the same open sums and every closed point from the cut on, up to the trim. |
| `HistoryRuns.StoreRestart` | internal/history/history.go:175-247 | For a load at any moment: each averaged tier continues, then and after any further pushes, when its open bucket is spared, and its open sums come back iff it is. |
| `HistoryRuns.StoreReadsAlike` | internal/history/history.go:140-247 | After a load not before the last push and any further pushes, Range gives what it gives without the restart, for every span, time and since, when its window starts after the cut of the load and, for an averaged tier, the open bucket was spared. |
| `HistoryRuns.RawReadsAlike` | internal/history/history.go:140-247 | The raw points a load drops stay out of every window from its cut on, whatever is pushed and trimmed later. |
| `Debver.Verrevcmp` | internal/debver/debver.go:80-116 | The two-index scan has the sign of the lexicographic order of (text, number) lists padded with ("", 0) (section 5.6.12 of the Debian Policy Manual); all indices stay in range and both loops end. |
| `Debver.MatchDigits` | internal/debver/debver.go:98-104 | Scanning both digit runs in step, the first difference has the order of the numbers passed. |
| `Debver.NumbersDecide` | internal/debver/debver.go:92-113 | Skipping zeros, then the longer run, then the first difference decides as the numbers do. |
| `Debver.Atoi` | internal/debver/debver.go:45-57 | The epoch of an all-digit text in 64-bit arithmetic with wrap-around, else none. |
| `Debver.Split` | internal/debver/debver.go:28-43 | Epoch before the first colon, revision after the last dash. |
| `Debver.Compare` | internal/debver/debver.go:11-21 | Epoch, then upstream version, then revision. |
| `Debver.Antisymmetric` | internal/debver/debver.go:80-116 | Swapping two lists negates their order. |
| `Debver.Transitive` | internal/debver/debver.go:80-116 | The order is transitive, and a chain that ends equal was equal throughout. |
| `Debver.EqualIsCanonical` | internal/debver/debver.go:80-116 | Two texts compare equal iff their token lists agree up to padding. |
| `Debver.VersionOrder` | internal/debver/debver.go:11-43 | Whole versions are totally preordered; equal exactly on the same canonical form. |
| `Schedule.MinutesExactly` | internal/schedule/schedule.go:78-84 | A text is read as a minute of the day iff it is that minute written HH:MM, or H:MM before ten. |
| `Schedule.Active` | internal/schedule/schedule.go:125-142 | The first window that holds the minute, else the first fallback. |
| `Schedule.ActiveSteady` | internal/schedule/schedule.go:100-142 | The active entry changes only at a window boundary or a full hour. |
| `Schedule.WeekDecides` | internal/schedule/schedule.go:100-142 | What is active throughout one week is active ever after. |
| `Schedule.Candidates` | internal/schedule/schedule.go:154-171 | Every boundary of today and the lookahead days is among the candidates. |
| `Schedule.Next` | internal/schedule/schedule.go:150-183 | The least instant after now, within 8 days, at which another entry is active; no change is answered iff the active entry never changes again. |
| `Scheduling.Scheduler.Evaluate` | cmd/n5-fangov/scheduler.go:116-156 | An apply is attempted iff the active entry, up to Equal, differs from the last one; the baseline moves whether or not it succeeds. |
| `Scheduling.Run` | cmd/n5-fangov/scheduler.go:95-156 | What every tick of a run applies, whatever the applies answer. |
| `Scheduling.OneAttempt` | cmd/n5-fangov/scheduler.go:116-156 | Two ticks of one steady stretch do not both attempt: a failed apply is not retried. |
| `Scheduling.ExactlyOneAttempt` | cmd/n5-fangov/scheduler.go:95-156 | With ticks less than 60 s apart, at any instant an entry is active exactly one tick of that stretch attempts it. |
| `Eval.FirstLeaving` | internal/validate/eval.go:319-335 | The first sample that left the written value, and the exact largest deviation. |
| `Eval.FirstSteady` | internal/validate/eval.go:359-380 | The first fully observed window within the band of its first value. |
| `Eval.EvalHandback` | internal/validate/eval.go:306-410 | T2 and T3 of a register pass (fail) exactly when its samples in order of time show it, and the reported times, deviation and settled value are those of the first such samples. |
| `Eval.FullLogIsDecided` | internal/validate/eval.go:306-410 | A log with known timing and no crossing that reaches 1020 s is always decided by T3. |
| `Eval.VerdictsExclusive` | internal/validate/eval.go:306-410 | No log passes and fails the same test. |
| `Eval.Combine` | internal/validate/eval.go:495-514 | PASS iff all pass, FAIL iff all fail. |
| `Eval.EvalHandbackRegs` | internal/validate/eval.go:419-491 | A sub-run judges every register and combines them. |
| `Eval.AggregateHandback` | internal/validate/eval.go:519-645 | Three repetitions with both sub-runs, else inconclusive. |
| `Eval.AggregateDecides` | internal/validate/eval.go:519-645 | The aggregate is PASS (FAIL) iff there are three repetitions, each with every wanted sub-run, and every judged register of every sub-run has that verdict. |
| `Eval.MValue` | internal/validate/eval.go:648-657 | The second written value is 48 above the automatic one, kept within 100..200. |
| `Eval.Crossing` | internal/validate/eval.go:138-165 | The input crossed a table step iff some value lies beyond the margin on the other side. |
| `Running.Runner.LimitLost` | internal/validate/runner.go:171-256 | A limit sensor unreadable for three samples in a row ends the run, and exactly then. |
| `Running.Runner.TakeSample` | internal/validate/runner.go:171-256 | Another writer, a sensor at its limit or a stopped fan always aborts; the sample is what the environment answered. |
| `Running.Runner.Hold` | internal/validate/runner.go:264-299 | Sampling a phase sends nothing and ends complete, or aborted; a complete phase has a row or a skip for each slot it was to have, and the gap count grows by the skipped slots and the rows off the grid. |
| `Running.Runner.Slots` | internal/validate/runner.go:264-299 | The slots are taken in order from the first on: each is one answer's row with its due time, marked when it was read further off than the tolerance, or is skipped because the clock was past its due time by more than that. |
| `Running.Runner.SendThenHold` | internal/validate/runner.go:655-690 | A phase begins with the answer behind its accepted command, and no command is sent within it. |
| `Running.Runner.WriteDuty` | internal/validate/runner.go:314-325 | A duty outside 100..255 is refused before anything is sent. |
| `Running.Runner.PutBack` | internal/validate/runner.go:379-415 | A restore that succeeded left the stop state as the last command, or 255 for the overheated channel. |
| `Running.Runner.Close` | internal/validate/runner.go:361-373 | After Close every channel is in its safe state or still listed. |
| `Running.Runner.Unrestored` | internal/validate/runner.go:419-427 | Lists exactly the channels still touched. |
| `Running.Runner.Gates` | internal/validate/runner.go:430-473 | The gate window sends nothing. |
| `Running.Runner.RunT1` | internal/validate/runner.go:516-574 | The mapping test keeps the run invariant on every exit path and sends nothing when it must not run. |
| `Running.Runner.SubRunOf` | internal/validate/runner.go:655-706 | A sub-run's result is the evaluation of the rows of its own two recorded phases. |
| `Running.Runner.RunHandback` | internal/validate/runner.go:605-736 | Keeps the invariant on every exit path. A judged run that was not aborted recorded one complete pre window behind its accepted automatic command and both sub-runs of every repetition, each hold right behind the accepted write and each observation right behind the accepted automatic command; the results are the evaluation of those rows, the verdicts their aggregate; an aborted run decides nothing. |
| `Running.VerdictMeans` | internal/validate/runner.go:605-736 | The verdict of a whole run is PASS (FAIL) iff there are three repetitions and every judged register of every sub-run passes (fails) on the rows recorded for it. |
| `Running.Session` | internal/validate/runner.go:314-736 | Any sequence of procedures and stops against any environment, then Close: duties in 100..255, nothing sent with unreadable registers; after an abort each command is a restore, or manual mode and 255 on the overheated channel; every commanded channel restored (or at 255 if it overheated) or listed. |
| `Lines.RoundTrip` | internal/config/file.go:112-118 | Joining lines and splitting the text again gives the same lines. |
| `SetKeys.Locate` | internal/config/file.go:118-136 | One pass finds the first table, the section's header and the end of its body. |
| `SetKeys.FindDotted` | internal/config/file.go:146-158 | The dotted key itself, else the last line under its section. |
| `SetKeys.SetBody` | internal/config/file.go:169-179 | In a section body the key is replaced in place or added before the trailing blank lines. |
| `SetKeys.SetKey` | internal/config/file.go:112-180 | The loops compute the edit SetText that the laws below are about. |
| `SetKeyLaws.GetAfterSet` | internal/config/file.go:112-180 | The edit is right for every complete literal iff it found all there was to find. Right: a reader that follows values over lines and takes headers and keys in any spelling finds the value once, the section defined once, no table of the key's name, and every other line as it was. Found all: one header or dotted keys, at most one assignment, a place between two values, no table of the key's name, and an old value whose further lines, if any, are blank or comments. |
| `SetKeyLaws.LandedExactly` | internal/config/file.go:112-180 | For an edit that stands between two values this holds of each single value. |
| `SetKeyLaws.MissedIsWrong` | internal/config/file.go:118-136 | An edit that lands inside an open value, or under a header the reader does not see, is wrong for one of two values. |
| `SetKeyMisses.BothLayouts` | internal/config/file.go:112-180 | A text with both layouts at once, which the edit does not see through. |
| `SetKeyMisses.SpacedHeader` | internal/config/file.go:133-135 | A header written [ a ]: the edit opens the section a second time. |
| `SetKeyMisses.KeyIsTable` | internal/config/file.go:162-167 | A header [a.k]: setting a.k defines it a second time. |
| `SetKeyMisses.ValueOverLines` | internal/config/file.go:169-173 | A value over two lines: the edit replaces the first and leaves the closing bracket behind. |
| `SetKeyMisses.LeftOverKey` | internal/config/file.go:169-173 | A multi-line string with a line that looks like a key: the edit gives that key a value it did not have. |
| `SetKeyLaws.OthersKept` | internal/config/file.go:112-180 | Every other key of every section reads as before, every line of its value, in both layouts and any spelling, when the edit stands between values and the rest of the old value is blank or comments. |
| `SetKeyLaws.SectionEdit` | internal/config/file.go:169-179 | With a header, one line under it is replaced or inserted and nothing else changes. |
| `SetKeyLaws.DottedEdit` | internal/config/file.go:146-161 | Without a header, one dotted line is replaced or inserted and nothing else changes. |
| `SetKeyTwice.PutPut` | internal/config/file.go:112-180 | Setting a second value leaves what setting it alone leaves, line for line. |
| `SetKeyTwice.SetTextTwice` | internal/config/file.go:112-180 | The same byte for byte, so setting a value twice is setting it once. |
| `ReplacingChannels.Scan` | internal/config/file.go:199-237 | The pass with the open-block variables marks exactly the lines of channel blocks and finds the first block. |
| `ReplacingChannels.Copy` | internal/config/file.go:238-256 | The copy drops the marked lines and puts the new tables where the first block was. |
| `ReplacingChannels.ReplaceChannels` | internal/config/file.go:193-257 | Both passes compute the edit ReplacedText that the laws below are about. |
| `ReplaceLaws.EntriesPreserved` | internal/config/file.go:193-278 | Every header and key line outside the channel tables is kept, in order and under the same header, for any text. |
| `ReplaceLaws.LinesPreserved` | internal/config/file.go:193-257 | Every line outside the channel blocks, comments and blanks too, is kept in order, with at most one blank line added. |
| `ReplaceLaws.BlocksAreNew` | internal/config/file.go:193-257 | The channel blocks of the result are exactly the blocks of the new tables. |
| `ReplaceLaws.Twice` | internal/config/file.go:193-257 | What a second replacement gives: the lines between the first tables stay behind the new ones. |
| `ReplaceLaws.TwoChannelsGrow` | internal/config/file.go:193-257 | Two channels with a blank line between them: every application adds a line. |
| `ReplaceLaws.TextIdempotentExactly` | internal/config/file.go:193-257 | Applying the same channels twice is a no-op byte for byte iff their text has no line outside its blocks. |
| `Merging.Rename` | cmd/n5-fangov/wiring_presets.go:183-189 | The renaming loop ends with a name not in use. |
| `Merging.NumberedInjective` | cmd/n5-fangov/wiring_presets.go:185-188 | The numbered names differ, which is why that loop ends. |
| `Merging.MergeChannelsByPWM` | cmd/n5-fangov/wiring_presets.go:154-194 | The maps and loops compute the merge Merged that the laws below are about. |
| `Merging.KeepsIdentity` | cmd/n5-fangov/wiring_presets.go:154-194 | Every channel of the config keeps its place, name and pwm. |
| `Merging.NamesStayUnique` | cmd/n5-fangov/wiring_presets.go:154-194 | Names stay unique whatever names the preset uses. |
| `Merging.PwmsStayUnique` | cmd/n5-fangov/wiring_presets.go:154-194 | Pwms stay unique when the config's and the preset's are. |
| `Merging.PresetApplied` | cmd/n5-fangov/wiring_presets.go:154-194 | Every channel on a pwm of the preset is as the preset says. |
| `Merging.PresetCovered` | cmd/n5-fangov/wiring_presets.go:154-194 | Every pwm of the preset is managed afterwards. |
| `Merging.OthersKept` | cmd/n5-fangov/wiring_presets.go:154-194 | Channels the preset does not name stay as they are. |
| `Merging.Idempotent` | cmd/n5-fangov/wiring_presets.go:154-194 | Applying a preset again changes nothing. |
| `Merging.PresetNeedsNoRestart` | cmd/n5-fangov/wiring_presets.go:114-140 | When the config has all the preset's pwms, the running daemon accepts the merged file iff its own channel names are unique (SanitizeChannels can break that by reusing a name). |
| `Merging.RestartExactlyOnNewPwm` | cmd/n5-fangov/wiring_presets.go:102-113 | Without corrections the reload is accepted iff the config has every pwm of the preset. |
| `Smbios.ReadStrings` | internal/sysinfo/smbios.go:84-103 | The string loop, in bounds on any bytes. |
| `Smbios.WalkSMBIOS` | internal/sysinfo/smbios.go:74-111 | The walk ends on any bytes, reads in bounds and reports an impossible length. |
| `Smbios.SpansInTable` | internal/sysinfo/smbios.go:74-111 | Every returned structure lies in the table. |
| `Smbios.SpansOrdered` | internal/sysinfo/smbios.go:74-111 | The structures follow each other without overlap. |
| `Smbios.EndIsLast` | internal/sysinfo/smbios.go:105-109 | Only the last structure can be of type 127. |
| `Smbios.RoundTrip` | internal/sysinfo/smbios.go:74-111 | Walking the encoding of any well-formed structures (sections 6.1.2 and 6.1.3 of DMTF DSP0134), with unread bytes behind it, gives back exactly those structures. |

## Left out

- LoopRuns.StepKeeps: the parser's guarantees on a reloaded config (valid curve, stop duty 60..255, steps 1..255) are assumed of the config, since TOML parsing is not part of this model.
- LoopRuns.StartOK: channels whose device has no such pwm are dropped at start without a trace; the probing of the device is not part of this model.
- Curves.Interpolate: over the reals, where the source computes in float64; rounding of the interpolated value is not modelled.
- HistoryRuns.AllIsGroupMeans: rounding of floating-point sums is not modelled (means are over the reals).
- Settling.RegulationSettles: for min_on 0 and successful writes; the hold and failing writes have their own theorems.
- Schedule.Next: for a zone with a fixed offset; daylight-saving changes and time-zone lookups are not modelled.
- SetKeyLaws.GetAfterSet: for bare section and key names and values that are complete on their line, as all callers pass. The reader cuts a key line at its first "=" and a key at its dots, so a quoted key with one of them, or an escape, inside is not read as one key.
- SetKeyLaws.OthersKept: not when lines of the old value are left behind, since they may then read as keys (`SetKeyMisses.LeftOverKey`).
- ReplaceLaws.EntriesPreserved: headers are what the source takes for headers, so a line of a multi-line array that starts with "[" counts as one.
- Merging.Idempotent: on the parsed tables; writing them to the file and parsing them back is not part of this model.
- Running.Runner.RunT1: the verdict text of the mapping test and its mapping evaluation are left out; the commands it sends are modelled.
- Running.Runner.Hold: the deviation band check of a phase and the log events are left out.
- Control.Controller.RunCycle: Stop enters a cycle at its two hardware parts; the interleaving at the grain of lock, check and single write is the separate machine in `StopRace`.
- The effective ceilings of sensor parts and the disk kinds behind them arrive as inputs.
- The fields of a channel are grouped in records (drive, sense, fan, heat, post) that the methods replace as a whole.
- Slice sharing: `CloneChannels`, `Config.Clone` and copied history points are values here, so aliasing is not captured.
- Alerts, log lines, snapshots, state.json, override files, alert stamps: state without a deep invariant.
- The external emergency hook process: only the decision when it fires is modelled.
- TOML and JSON encoding and decoding, file writes and their modes: library code.
- sysfs, procfs, hwmon, debugfs and dpkg plumbing, the HTTP API, TLS, sessions, mail and webhooks.
- The gates G1, G2, G5 to G7, the T1 verdict text, bundle files and log replay of the validation run.
- SMBIOS accessors and the memory module list built from the walk: they would add only easy members.
- Unicode white space: trimming is modelled for ASCII.
