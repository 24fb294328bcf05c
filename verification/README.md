# Verification of the monitoring pipeline and its small protocols

This project models the parts of the server and its monitoring agent whose
correctness is a matter of arithmetic or of state that survives retries, crashes and
restarts, and proves what they are for. Every theorem is about all inputs, all runs or
all reachable states of the model.

- **Counters to totals.** `Telemetry` derives byte deltas from two reports, `HostTotals`
  says what is derived, `Traffic` apportions a delta to calendar billing periods
  (`Calendar`), `Stats`, `Rollups` and `RollupTable` keep three rollup resolutions,
  `Ingest` is the transaction that handles one report, and `IngestRuns`/`AtMostOnce` are
  about whole runs of reports and clean-ups. `RowMeaning` and `PeriodPeaks` say what the
  rows hold in terms of the reports. `History` regroups rows for display; `SampleCache`
  is the raw window in memory.
- **Agent and server.** `AgentBuffer`/`AgentQueues`/`AgentRuns`: the bounded, persisted
  queue of unsent readings and its two threads. `ReportRuns`: that queue, a channel and
  the server's deduplication together. `Credentials`/`CredentialRuns`: registration and two-phase rotation
  of the agent's credential over a channel that loses, delays, reorders and repeats.
- **Alerts.** `Alerts`: the dwell, hysteresis and cooldown machine against a
  declarative description of whole traces. `HostAlerts`: what each alert of a host goes by.
- **Money and keys.** `Ledger`: reservations, settlements, refunds and idempotent
  top-ups. `KeyRotation`: re-encryption of every ciphertext column in one transaction.
- **Small cores.** `RateLimit`, `EventStream` (event framing in the browser and its
  printer in the server), `ShellQuote`. `MapSums` adds up table columns and `Basics` holds
  what all modules share.

Objects that the source updates in place are classes (`MonitorStore`, `StatCell`,
`Cache`, `Limiter`, `Accounts`, `Binding`, `AgentProcess`, `Buffer`, `HeapTable`,
`Vault`), and loops of the source are methods with loops. Each is proved equal to a
function of the old state, and the theorems are about those functions. Time is an
integer number of nanoseconds. A database transaction is one step; its rows are maps,
and their unique keys are those of `internal/app/schema.sql` and
`internal/app/migrations/002_agent_monitoring.sql`. Instants count from 1 January of
year 1, the zero time that the source's truncation to buckets is relative to.

## Findings

Where the code does not do what one might expect, the code is modelled as it is and
the exact condition is proved.

- A gap of more than 366 daily (or monthly) periods loses some bytes of every non-empty
  delta; up to 366 it loses none (`LossIffTooManyPeriods`, `LongSilenceLosesBytes`).
- An acknowledged report need not have been counted: `metric_samples` is unique per
  second as well as per (session, sequence), so a second report of one second is
  acknowledged and dropped (`AcknowledgementMeans`, `SecondReportOfASecondIsDropped`).
- At-most-once counting relies on a report being stored within 59 min 30 s of being
  validated, because dedup rows live 2 h and the acceptance window is 1 h back and
  30 s ahead. One nanosecond more and a report can be counted twice
  (`CountedAtMostOnce`, `SlowIngestRepeats`, both halves in `SlackIsExact`).
- The comment at `internal/app/monitor_alerts.go:145-146` says that missing metrics
  suspend active alerts. That holds for observations that are unknown, but a mount that
  is missing from the latest report is not evaluated at all and its active alert is
  forgotten without a recovery, cooldown included, even while muted
  (`ActiveAlertForgottenExactly`, `UnreportedDiskIsForgotten`).
- Rotation of an agent credential never locks the agent out (`NeverLockedOut`), but
  registration has no second phase: one lost reply strands the agent until the binding
  is disabled (`StrandedExactly`, `LostRegistrationIsFinal`, `OneLostReplyStrands`).
- A query for the binding that fails for any reason is answered with status 401, and so
  is a sample that names another agent. The agent takes either for a revocation and
  stops, although its credential is good (`RefusedExactly`, `OneFailedLookupStops`).
- A pause empties the agent's queue in memory; it reaches the file exactly when
  something is saved during the pause: because the reply also acknowledges a reading, or
  by a collector that was sampling when the pause came. Otherwise discarded readings
  can be back after a crash and a restart (`PauseReachesFileExactly`,
  `PausedReadingsReturnExactly`, `PausedReadingsMayReturn`, `CollectorSavesThePause`).
- A collector whose save fails ends, but the sender goes on until it notices: the
  reading is queued without being on disk, exactly until something else is saved or the
  process ends, and may still be sent and acknowledged (`BufferIsBoundedAndSaved`,
  `UnsavedReadingIsStillSent`).

## Model

| member | source | states |
|---|---|---|
| Calendar.MonthIsUnique | internal/app/monitor_history.go:302-317 | the Gregorian month of a day is the only month whose days contain it, across leap years |
| Calendar.FixedOffsetIsRegular | internal/app/monitor_history.go:302-317 | every fixed UTC offset meets the assumption on time zones: local midnights are real, strictly increasing, and each instant belongs to the day they delimit |
| Calendar.CycleContains | internal/app/monitor_history.go:302-317 | the code computes billing cycle k for an instant if and only if the instant lies in cycle k |
| Calendar.PeriodsPartitionTime | internal/app/monitor_history.go:302-317 | billing periods partition time: each contains its instants, exactly the instants of a period map to it, and the next period starts where it ends |
| Calendar.PeriodSpansCalendar | internal/app/monitor_history.go:302-317 | a daily period is one local day; a monthly one starts on the billing day and covers 28 to 31 local days |
| Traffic.AddTraffic | internal/app/monitor_history.go:86-95 | per name and direction the bytes are added and the peak is the larger of the two; other names stay |
| Traffic.JoinedMeans | internal/app/monitor_history.go:86-95 | a joined entry has the sum of the bytes, and a peak that is at least both peaks and one of them, an absent entry counting as zero |
| Traffic.ShareFits | internal/app/monitor_history.go:341-356 | a portion never exceeds what is left to allot, so no subtraction underflows, and what is left still covers the rest of the interval |
| Traffic.ApportioningConserves | internal/app/monitor_history.go:319-384 | rows gained plus bytes left always equal rows before plus bytes to allot, at any point of the loop |
| Traffic.LossIffTooManyPeriods | internal/app/monitor_history.go:330-382 | the remainder is zero if and only if the delta was zero or at most 366 periods are touched |
| Traffic.OtherRowsUntouched | internal/app/monitor_history.go:330-382 | rows of periods that the interval does not meet are unchanged |
| Traffic.FirstRowGain | internal/app/monitor_history.go:330-382 | the row of the first period gains exactly the first portion, however many slices follow |
| Traffic.RowGainsItsShare | internal/app/monitor_history.go:330-382 | every period that ends inside the interval gains exactly the floor of its share of the elapsed time |
| Traffic.RowsOnlyGrow | internal/app/monitor_history.go:368-371 | a row that is over its interface limit stays over it, so stopping early decides the same as finishing |
| Traffic.ApportionTotals | internal/app/monitor_history.go:319-384 | for a whole delta: recorded total plus leftover is old total plus delta, and the exact condition for no leftover |
| Traffic.LongSilenceLosesBytes | internal/app/monitor_history.go:330-382 | after more than 366 days of silence the daily table loses some of every non-empty delta |
| Traffic.Slice | internal/app/monitor_history.go:340-356 | one pass over the interfaces yields every portion and what is left after it |
| Traffic.PersistTraffic | internal/app/monitor_history.go:319-384 | the loop refines the apportioning function and fails exactly when a row would hold more than 512 interfaces, leaving the rows alone |
| Telemetry.CompareInterfaces | internal/app/monitor_history.go:172-210 | the interface loop yields exactly the deltas, byte, error and drop rates and totals of the interfaces whose counters continue |
| Telemetry.AddCounters | internal/app/monitor_history.go:194-198 | the inner loop adds one rate for each named counter that did not decrease |
| Telemetry.CompareDisks | internal/app/monitor_history.go:211-227 | the disk loop adds exactly the rates of the counters that did not decrease |
| Telemetry.DeriveMetrics | internal/app/monitor_history.go:105-229 | deriving equals the specification: nothing across reboots or out-of-order reports, no peaks or rates across gaps |
| Telemetry.DeltaIsCounterDifference | internal/app/monitor_history.go:159-206 | a derived delta is the difference of the counters when nothing was reset, and zero otherwise |
| Telemetry.RatesMatchBytes | internal/app/monitor_history.go:179-206 | a reported rate times the elapsed time gives back the recorded bytes, per direction, and is the recorded peak; across a gap there is neither rate nor peak |
| Telemetry.CounterRateOf | internal/app/monitor_history.go:194-198 | a named counter has a rate if and only if it did not decrease, and the rate is its increase per second |
| Telemetry.FaultRatesMatchCounters | internal/app/monitor_history.go:194-198 | the same for the error and drop counters of each interface that continues |
| Telemetry.DiskRatesMatchCounters | internal/app/monitor_history.go:211-227 | without a gap, each disk counter that did not decrease has a rate that over the elapsed time gives back its increase, whatever other disks report |
| HostTotals.TotalsAreIncreases | internal/app/monitor_history.go:96-103 | without a gap, each direction's total of the host over the elapsed time is the sum of counter increases over the contiguous interfaces that are not excluded and are listed, or primary when none is listed; without such an interface there is no total |
| HostTotals.FlagsAreExact | internal/app/monitor_history.go:145-171 | exactly when a report counts as one after a gap or a reset, which interfaces have a delta, and that nothing is derived out of order, across a reboot, across a gap or from a first report |
| HostTotals.NothingElseIsDerived | internal/app/monitor_history.go:172-227 | every value is a reading of the report, a rate or unreset counter of a contiguous interface, a total, or an unreset counter of a disk in both reports |
| HostTotals.DiskRatesExactly | internal/app/monitor_history.go:211-227 | a disk in both reports: without a gap each counter that did not decrease has a rate that over the elapsed time gives back its increase |
| Telemetry.StretchIsMaximal | internal/app/monitor_history.go:159-206 | stretches are maximal: every step inside is free of reset and the step before is not |
| Telemetry.StretchesTelescope | internal/app/monitor_history.go:159-206 | one more report adds exactly its derived delta to the sum of last minus first counters over maximal stretches |
| Stats.MergeLaws | internal/app/monitor_history.go:36-50 | on sound records merging is associative and commutative, with the empty record as unit |
| Stats.AddIsMerge | internal/app/monitor_history.go:25-50 | adding a value is merging the record of that value alone |
| Stats.DescribeMeans | internal/app/monitor_history.go:25-35 | count, sum, average, minimum and maximum are those of the values added, and minimum <= average <= maximum |
| Stats.MergeIsConcatenation | internal/app/monitor_history.go:25-50 | adding over a split and merging equals adding everything |
| Stats.StatCell.Add | internal/app/monitor_history.go:25-35 | the fields in place become those of the readings so far and the new one |
| Stats.StatCell.Merge | internal/app/monitor_history.go:36-50 | the fields in place become those of both records' readings together, also when merging an empty record |
| Rollups.MergeAssociates | internal/app/monitor_history.go:36-95 | merging rollups (count, gap, statistics, traffic, check totals) is associative |
| Rollups.MergeCommutes | internal/app/monitor_history.go:36-95 | merging rollups is commutative |
| RollupTable.AddValues | internal/app/monitor_history.go:247-251 | the loop over metric values equals merging single-value records by name |
| RollupTable.AddResults | internal/app/monitor_history.go:253-267 | the loop over check results equals merging the outcomes of the configured targets |
| RollupTable.PersistMonitor | internal/app/monitor_history.go:230-279 | one report is merged into its row at each of the three resolutions and into no other row; it fails exactly when a row would exceed its dimension limits |
| RollupTable.RecordingIsExact | internal/app/monitor_history.go:230-279 | if every retained row is the fold of the reports in its span, it still is after one more report |
| RollupTable.RetentionStaysExact | internal/app/maintenance.go:45 | deleting expired rows keeps every row that is still due exact |
| RollupTable.ResolutionsAgree | internal/app/monitor_history.go:230-279 | a coarse row equals the merge of the finer rows nested in it while none of those has expired |
| RollupTable.RecordingWeighs | internal/app/monitor_history.go:230-279 | each resolution's total of reports, and of bytes per interface, grows by exactly the report's contribution |
| RollupTable.RetentionWeighs | internal/app/maintenance.go:45 | clean-up moves exactly the deleted rows out of those totals |
| Ingest.MonitorStore.Ingest | internal/app/agent_monitoring.go:399-491 | the transaction equals the specification: which reply, and for a counted report every modelled table; for any other reply no modelled table changes (the binding columns last_seen, last_current, version and status are not modelled) |
| Ingest.MonitorStore.Maintain | internal/app/maintenance.go:41-48 | each statement, at its own time, deletes exactly what is past its retention, and the first that fails stops the rest |
| IngestRuns.AnswersExactly | internal/app/agent_monitoring.go:435-491 | each reply exactly: outside the window, paused, another agent's sample, a repeated identity or second, a row over its limits; only a counted report changes anything, and the latest report is replaced only by a later one |
| IngestRuns.OnlyAdmittedReportsCount | internal/app/agent_monitoring.go:435-446 | in every run, whatever was counted arrived in time, unpaused and for its own binding |
| IngestRuns.CleanupDeletesExactly | internal/app/maintenance.go:41-48 | a clean-up deletes exactly deduplication rows older than two hours, rollups older than 1, 30 or 180 days by resolution and period rows older than 180 days |
| RowMeaning.RetainedRowsSay | internal/app/monitor_history.go:230-279 | in every reachable state each retained row has the number of reports counted in its span, whether one came after a gap or reset, the statistics of every reading, the bytes and the largest peak of every interface, and the numbers of results and the latencies of every configured check |
| RowMeaning.DisplayPointsSay | internal/app/monitor_history.go:493-567 | the same for every display point, as far as its bucket lies in fetched and retained rows; a gap exactly when no report was counted there |
| PeriodPeaks.AllocatePeaks | internal/app/monitor_history.go:330-382 | apportioning raises the peak of exactly the first 366 periods that the interval touches, to the larger of the two |
| PeriodPeaks.PeriodPeakIsLargest | internal/app/monitor_history.go:319-384 | in every reachable state the peak of a billing row that is not past its retention is the largest rate among the counted reports that added to it, attained, or zero |
| IngestRuns.ReachableRollupsAreExact | internal/app/monitor_history.go:230-279 | in every reachable state each retained row is the fold of the reports counted in its span |
| IngestRuns.ReachableResolutionsAgree | internal/app/monitor_history.go:230-279 | in every reachable state the 60 s and 3600 s rows equal the merge of the finer rows nested in them, before retention deletes those |
| IngestRuns.TrafficTelescopes | internal/app/monitor_history.go:159-206 | over any run with duplicates, reordering, replays and retention, each resolution's and each period table's bytes are the sum of last minus first counters over maximal stretches, minus what apportioning left; with the exact condition for nothing left |
| AtMostOnce.CountedAtMostOnce | internal/app/agent_monitoring.go:446-454 | no report is counted twice in any run whose waits between validation and storage stay within 59 min 30 s |
| AtMostOnce.ReplayChangesNothing | internal/app/agent_monitoring.go:446-454 | a replay of a counted report changes no rollup, traffic row, dedup row or latest report |
| AtMostOnce.AcknowledgementMeans | internal/app/agent_monitoring.go:446-454 | an acknowledged report, or another with its identity or of its second, was counted; it was not counted itself if and only if such a one is still remembered |
| AtMostOnce.SecondReportOfASecondIsDropped | internal/app/agent_monitoring.go:446-454 | two concrete reports of one second with different identities: both are acknowledged and only the first is counted |
| AtMostOnce.SlackIsExact | internal/app/maintenance.go:42 | a bound on the wait between validation and storage makes every run count each report at most once if and only if it is at most 59 min 30 s |
| AtMostOnce.EveryResolutionCountsAll | internal/app/monitor_history.go:230-279 | the counts at each resolution, deleted rows included, add up to the number of counted reports |
| AtMostOnce.SlowIngestRepeats | internal/app/maintenance.go:42 | a concrete run, with a wait one nanosecond over the slack, that counts a report twice |
| History.MonitorHistory | internal/app/monitor_history.go:531-567 | the two loops emit a contiguous grid in which each point is the merge of the fetched rows in its bucket, or an explicit gap |
| History.CombineInto | internal/app/monitor_history.go:541-556 | merging one fetched row's map into a display bucket, key by key |
| History.ResolutionIsFinest | internal/app/monitor_history.go:493-503 | the finest resolution is read whose rows are kept for the whole range and for which the range is not too long |
| History.FactorIsLeast | internal/app/monitor_history.go:531-536 | the least whole number of rows per display point with which 1500 points cover the range |
| History.GridIsBounded | internal/app/monitor_history.go:531-567 | at least one and at most 1501 points for every range |
| History.LandsOnce | internal/app/monitor_history.go:531-567 | every fetched row falls into exactly one display point |
| History.RegroupingIsLossless | internal/app/monitor_history.go:531-567 | summed counts and bytes per interface over the display points equal those over the fetched rows |
| History.QueryLosesNothing | internal/app/monitor_history.go:504-567 | whatever rows the query fetches, the points shown have the same counts and bytes |
| History.ReachableRowsAreAligned | internal/app/monitor_history.go:230-244 | in every reachable state rows start on multiples of their step |
| History.DisplayPointsAreDirectFolds | internal/app/monitor_history.go:493-567 | in every reachable state, every display point, the clipped first and last included, equals the direct fold of the counted reports of its bucket, as far as the bucket lies in the fetched rows and these are still retained, whatever resolution was read; it is a gap exactly when there were none |
| History.QueriedRowsAreLive | internal/app/monitor_history.go:493-504 | everything inside the queried range itself is still retained at the resolution that is read |
| SampleCache.Trim | internal/app/monitor_history.go:391-402 | the longest suffix whose head is recent and which fits 600 samples and 8 MiB, or the newest sample alone |
| SampleCache.KeptSamplesAreRecent | internal/app/monitor_history.go:391-402 | a kept sample other than the newest is at most ten minutes old, or it reached the cache behind one that was taken later; in a ring filled in sampling order there is none of the second kind |
| SampleCache.Cache.Survey | internal/app/monitor_history.go:406-416 | the pass yields the total size and a host, other than the given one, that was silent longest |
| SampleCache.Cache.Put | internal/app/monitor_history.go:385-422 | the ring becomes the longest fitting suffix; the cache ends within 128 MiB unless one sample alone is larger; evicted hosts are no fresher than any that stays; the last eviction was needed; the loop ends |
| SampleCache.Cache.Evict | internal/app/monitor_history.go:405-421 | evicts stalest first and stops as soon as the budget holds or only the given host is left |
| SampleCache.Cache.Prune | internal/app/maintenance.go:59-65 | forgets exactly the hosts whose newest sample arrived more than ten minutes ago |
| AgentBuffer.Buffer.Persist | internal/agent/client.go:166-179 | trims from the front to the file limit, then writes; a failed write leaves the old file |
| AgentBuffer.Buffer.Collect | internal/agent/client.go:193-213 | one iteration: append unless paused meanwhile, drop the oldest beyond 600, persist; a failed save ends the collector, and the reading stays queued while the sender lives |
| AgentBuffer.Buffer.Take | internal/agent/client.go:273-283 | gives up readings older than 59 minutes at the front, then copies the head unless paused |
| AgentBuffer.Buffer.ApplySettings | internal/agent/client.go:130-141 | the settings of a reply: a pause empties the queue in memory |
| AgentBuffer.Buffer.Acknowledge | internal/agent/client.go:289-302 | removes the reading that was sent wherever it is by now, and persists; a failed save ends the sender |
| AgentBuffer.Buffer.Restore | internal/agent/client.go:143-165 | keeps the file's readings of this agent that validation still accepts, at most the newest 600 |
| AgentBuffer.Buffer.Boot | internal/agent/client.go:233-256 | a restart asks for settings first and restores the file unless paused |
| AgentQueues.FittedIsLongest | internal/agent/client.go:171-177 | a reading is cut by the file limit if and only if the encoding from it on is too large |
| AgentRuns.StepKeeps | internal/agent/client.go:143-302 | each step keeps the buffer bounded, ordered and mirrored on disk but for a reading whose save failed, and a reading leaves it in a step if and only if the cause named for that kind of step applies |
| AgentRuns.BufferIsBoundedAndSaved | internal/agent/client.go:143-220 | in every reachable state: at most 600 readings and 32 MiB and no (session, sequence) twice; a queued reading is missing on disk if and only if it was collected last and the collector ended because it could not save it, with nothing saved since |
| AgentRuns.EveryReadingIsAccountedFor | internal/agent/client.go:143-302 | under any interleaving of collector, sender, failed saves, crashes and restarts, a collected reading is still held, or was held before and not after a later step, for the cause named for that step |
| AgentRuns.OnlyCollectedReadings | internal/agent/client.go:143-302 | whatever is queued, on disk or being sent was collected, unaltered, at some step |
| AgentRuns.KeysNameReadings | internal/agent/client.go:291-292 | in every reachable state a (session, sequence) pair names one reading, in the queue, on disk and in flight |
| AgentRuns.KeysAreUsedOnce | internal/agent/client.go:291-292 | over a whole run, restarts included, two collected readings have one key exactly when they are the same reading of the same step |
| AgentRuns.SenderCycles | internal/agent/client.go:273-302 | a request is answered, or fails and may be tried again with the queue as it was; an answer to a reading is followed by its removal, and the pause flag is that of the reply |
| AgentRuns.ResumedAgentCollectsAndSends | internal/agent/client.go:130-141 | after a reply that does not pause, whatever was before, the next reading is queued and saved and the oldest is sent |
| AgentRuns.BootAdmits | internal/agent/client.go:143-165 | exactly which readings a start restores: on disk, of this agent, from one hour back to 30 s ahead, otherwise valid, unless paused or unreadable |
| AgentRuns.AcknowledgementRemovesOne | internal/agent/client.go:289-302 | an acknowledgement removes the very reading that was sent and no other, even if eviction moved or removed it, and keeps the order of the rest |
| AgentRuns.OldestIsSent | internal/agent/client.go:273-284 | the oldest queued reading is sent, never one older than 59 minutes, and none while paused |
| AgentRuns.PauseReachesFileExactly | internal/agent/client.go:193-206 | however the run goes on while paused, crashes and paused restarts included, the file is empty if and only if it was empty or something was saved since (a collector iteration that ends during the pause, or the removal of an acknowledged reading), and otherwise it is what it was |
| AgentRuns.PausedReadingsReturnExactly | internal/agent/client.go:130-165 | when the process ends in a pause, however long, and starts again, a reading is queued again if and only if it was on disk when the pause began, nothing was saved during it, the agent is not told that it is paused, the file is readable and the reading is still valid |
| AgentRuns.PausedReadingsMayReturn | internal/agent/client.go:130-141 | a concrete run in which a reading discarded by a pause is restored after a crash |
| AgentRuns.CollectorSavesThePause | internal/agent/client.go:193-206 | a concrete run in which a collector that was sampling when the pause came empties the file, with nothing acknowledged |
| AgentRuns.UnsavedReadingIsStillSent | internal/agent/client.go:206-214 | a concrete run in which a reading whose save failed stays queued, is sent and is acknowledged without ever being on disk |
| ReportRuns.AcknowledgedWasCounted | internal/app/agent_monitoring.go:446-454 | in every joint run of agent, channel and server: when the agent is about to remove a reading as acknowledged, the server has counted its sample, or another of its identity or second; among the readings collected, one of the same second |
| ReportRuns.KnownBySecond | internal/app/agent_monitoring.go:446-454 | in every joint run, the server counted a sample of the identity or second of a collected reading if and only if it counted a collected reading of that second, as identities never repeat |
| ReportRuns.EveryReadingArrivesOrIsExplained | internal/agent/client.go:143-302 | end to end, a collected reading is still held, or known to the server, or was lost at a named step to a cause other than its acknowledgement; known means that a collected reading of its second was counted; and if reports are stored in time nothing is counted twice |
| ReportRuns.RemovalLosesOnlyIt | internal/agent/client.go:289-302 | a removal loses the acknowledged reading, or, if the process ends with it, what was never saved |
| ReportRuns.OneReadingArrives | internal/agent/client.go:284-297 | a concrete run in which a reading is collected, reported, counted and acknowledged, its sample having the reading's identity and time |
| Credentials.Binding.IssueRegistration | internal/app/agent_monitoring.go:157-187 | a new registration token replaces any other, and only while no reporting credential exists |
| Credentials.Binding.Disable | internal/app/agent_monitoring.go:188-219 | disabling clears every credential and registration token |
| Credentials.Binding.Rotate | internal/app/agent_monitoring.go:220-238 | a rotation starts exactly when the binding is enabled, has a credential and none is pending; then the new credential is pending, and nothing else changes |
| Credentials.Binding.HandleRegister | internal/app/agent_monitoring.go:239-290 | the one-time token is consumed together with setting the first credential, or neither; a failed lookup is answered like an unknown token |
| Credentials.Binding.HandleReport | internal/app/agent_monitoring.go:399-491 | a report with the pending credential promotes it and one with the current credential is handed the pending one, only if the whole transaction is kept; a failed lookup or a foreign sample is answered like an unknown credential |
| Credentials.AgentProcess.Apply | internal/agent/client.go:348-360 | a new credential is saved before use; a failed save ends the process with the old file in place |
| CredentialRuns.StepKeeps | internal/app/agent_monitoring.go:414-432 | every step of server, agent and channel keeps the protocol invariant |
| CredentialRuns.NeverLockedOut | internal/agent/client.go:348-360 | in every reachable state the credential on disk is accepted unless the binding was disabled since; with none pending it is the current one; at most two are valid |
| CredentialRuns.RefusedForCause | internal/app/agent_monitoring.go:294-318 | whatever is lost, delayed, repeated or crashes: if the agent is told that its credential is invalid, the binding was disabled or the server refused this very request for a reason of its own |
| CredentialRuns.RefusedExactly | internal/app/agent_monitoring.go:294-318 | a request of the agent is refused if and only if its credential was revoked, the lookup failed, or the sample names another agent |
| CredentialRuns.OneFailedLookupStops | internal/app/agent_monitoring.go:299-302 | a concrete run in which one failed lookup ends an agent whose credential the server accepts |
| CredentialRuns.SpentCredentialsStaySpent | internal/app/agent_monitoring.go:424-427 | a credential promoted over, or valid when the binding was disabled, is never accepted again |
| CredentialRuns.OnlyPromotionOrDisablingEnds | internal/app/agent_monitoring.go:414-432 | a valid credential stops being valid exactly on promotion of its successor or on disabling |
| CredentialRuns.TwoExchangesFinish | internal/app/agent_monitoring.go:414-432 | from every reachable state two undisturbed exchanges finish a rotation: one valid credential, and it is the one on disk |
| CredentialRuns.RotationStartsExactly | internal/app/agent_monitoring.go:220-238 | from every reachable state: under exactly that condition a credential never accepted before is pending, and both it and the current one are accepted |
| CredentialRuns.RotationReplaces | internal/app/agent_monitoring.go:414-432 | two undisturbed exchanges after a rotation was started, the file holds the new credential, it alone is accepted, and the old one is retired |
| CredentialRuns.ReportAnswersExactly | internal/app/agent_monitoring.go:399-432 | which reports are refused, retried, accepted or handed the pending credential, and that only a promotion changes the binding |
| CredentialRuns.ProcessStopsExactly | internal/agent/client.go:303-360 | which replies end the process, and what is on disk afterwards |
| CredentialRuns.EnablingAdmitsAgain | internal/app/agent_monitoring.go:157-187 | from every reachable state a binding that is disabled and enabled again admits an agent with a new token |
| CredentialRuns.RegistrationIsOneTime | internal/app/agent_monitoring.go:157-290 | at most one registration token is open, and one that was used, replaced, expired or revoked never registers an agent again |
| CredentialRuns.RegisteringSwaps | internal/app/agent_monitoring.go:239-290 | registering succeeds exactly while the token is open, no credential exists and nothing fails; it uses up the token and leaves the credential in the reply as the only valid one; any other answer changes nothing |
| CredentialRuns.DisablingIsFinal | internal/app/agent_monitoring.go:188-219 | from disabling until the binding is enabled again, no credential and no registration token is accepted, whatever is in flight |
| CredentialRuns.LostRegistrationIsFinal | internal/app/agent_monitoring.go:239-290 | once the server registered an agent that cannot learn its credential, no registration succeeds until the binding is disabled |
| CredentialRuns.StrandedExactly | internal/app/agent_monitoring.go:239-290 | a registered agent without a credential is lost for good if and only if no outstanding request of it has been answered by a registration; otherwise receiving that reply gives it a credential that is accepted unless revoked |
| CredentialRuns.OneLostReplyStrands | internal/agent/client.go:111-129 | a concrete run that strands the agent by losing one reply |
| Alerts.SuffixStartIsLongest | internal/app/monitor_alerts.go:155-177 | the dwell start kept by the machine is the start of the longest uninterrupted favourable suffix |
| Alerts.StateMeans | internal/app/monitor_alerts.go:147-190 | after any trace the stored state is determined by the notifications so far and the longest favourable suffix since |
| Alerts.TriggerExactly | internal/app/monitor_alerts.go:159-173 | a trigger is emitted exactly when inactive, the longest suffix of known triggering observations since the last notification without gaps over 15 s spans the hold time, and the cooldown is over |
| Alerts.RecoveryExactly | internal/app/monitor_alerts.go:174-188 | a recovery is emitted exactly when active and the longest recovering suffix since the trigger spans the recovery time |
| Alerts.UnknownSuspends | internal/app/monitor_alerts.go:148-153 | unknown observations notify nothing and never change whether the alert is active |
| Alerts.NotificationsAlternate | internal/app/monitor_alerts.go:147-190 | triggers and recoveries strictly alternate, a trigger first |
| Alerts.TriggersAreSpaced | internal/app/monitor_alerts.go:159-189 | N triggers take at least (N - 1) * (recovery + max(hold, cooldown)) |
| Alerts.EvaluateHostAlerts | internal/app/monitor_alerts.go:267-347 | one evaluation moves every evaluated key by its own observation and forgets every other key |
| HostAlerts.OfflineAlertExactly | internal/app/monitor_alerts.go:291-298 | the offline alert triggers exactly when the host is not muted, the age of the last current report is known and at least the grace, the alert is inactive, this has lasted and the cooldown is over; it recovers only while the host is online |
| HostAlerts.ProcessorAlertExactly | internal/app/monitor_alerts.go:300-307 | the CPU alert goes by the CPU reading against its own limit, and only while the host is heard |
| HostAlerts.MemoryAlertExactly | internal/app/monitor_alerts.go:300-310 | the same for memory |
| HostAlerts.DiskAlertsExactly | internal/app/monitor_alerts.go:311-317 | each reported mount has an alert by its own reading, and no other mount has one |
| HostAlerts.QuotaAlertExactly | internal/app/monitor_alerts.go:318-342 | while a quota is set its alert triggers on traffic of at least the quota and recovers below it; without a quota there is none |
| HostAlerts.NoOtherAlerts | internal/app/monitor_alerts.go:343-347 | an evaluation leaves no other keys |
| Alerts.KeyFollowsItsTrace | internal/app/monitor_alerts.go:263-347 | over any sequence of evaluations each key follows the trace specification, independently of the others |
| Alerts.BandsAreApart | internal/app/monitor_alerts.go:300-304 | a known reading favours triggering and recovery at once exactly when it is at the limit and the hysteresis is zero |
| Alerts.SilentWhileUnreachable | internal/app/monitor_alerts.go:267-341 | while muted no evaluated key is notified or changes its alert; while the agent does not report, only the offline alert can change |
| Alerts.ActiveAlertForgottenExactly | internal/app/monitor_alerts.go:343-347 | an active alert ends without recovery exactly when its key is not evaluated; for a disk alert, when its mount is not reported |
| Alerts.UnreportedDiskIsForgotten | internal/app/monitor_alerts.go:343-347 | a concrete run of three evaluations: a full disk sets off its alert, and a report without the mount forgets it without a recovery |
| Ledger.Accounts.Reserve | internal/app/ai.go:228-257 | a subscription call is admitted exactly when the balance is at least the input bytes plus 4096, which are then taken from it; other balances stay |
| Ledger.Accounts.Settle | internal/app/ai.go:322-343 | only a pending call is settled, and what it did not cost is returned |
| Ledger.Accounts.RecoverInterrupted | internal/app/maintenance.go:11-31 | a restart refunds every pending reservation to its user and closes it |
| Ledger.Accounts.Credit | internal/app/ai.go:168-198 | a credit event raises the balance of its user by its amount unless its identifier is known, and no other balance |
| Ledger.Accounts.InvoicePaid | internal/app/billing.go:280-297 | a payment raises the balance of its user by its amount unless its event or its invoice is known, and no other balance |
| Ledger.StepConserves | internal/app/ai.go:322-343 | every operation keeps balance plus holds plus costs equal to receipts, for every user, and no balance negative |
| Ledger.LedgerConserves | internal/app/ai.go:199-343 | under every interleaving of calls, repeated settlements, restarts and retried top-ups: balance + pending reservations + sum of min(input + output, reserved) over settled calls = distinct credits + distinct invoices = the amounts of the first credit of each identifier and the first payment of each event and invoice in the history; no balance is negative |
| Ledger.CallsAreAsked | internal/app/ai.go:228-343 | every row of the usage table is a call of the history: its user, the reservation for its input, and if settled the usage reported later |
| Ledger.CallsAreClosed | internal/app/ai.go:322-343 | a settlement closes its call, and a restart closes every call |
| Ledger.RetriesChangeNothing | internal/app/billing.go:280-297 | a top-up or settlement that was booked once changes nothing when repeated, however much later |
| Ledger.TopUpsAreBooked | internal/app/ai.go:168-198 | an accepted or repeated top-up is booked from then on |
| Ledger.LateSettlementIsIgnored | internal/app/maintenance.go:17-19 | a settlement that arrives after a restart changes nothing, so a refund is never followed by a charge |
| Ledger.CallCosts | internal/app/ai.go:251-343 | a call costs at most its reservation: nothing if the provider failed, all of it if the usage report is unusable |
| KeyRotation.HeapTable.Update | internal/app/monitor_rotation.go:87-92 | an update moves the row to a new address and a stale address finds nothing |
| KeyRotation.RotateRow | internal/app/monitor_rotation.go:66-94 | following the returned addresses, every non-empty column of a row is re-sealed with its own associated data and written once; it fails exactly when one does not open |
| KeyRotation.RotateTable | internal/app/monitor_rotation.go:49-98 | the batched cursor loop rotates every row of the table, loses and adds none, and fails exactly when some column does not open |
| KeyRotation.EachColumnOnce | internal/app/monitor_rotation.go:49-98 | the writes of a table's rotation are its non-empty columns, each exactly once, whatever the batches and moves |
| KeyRotation.RotateKeyed | internal/app/admin.go:65-122 | hosts, AI settings and tasks are rotated row by row; an empty data column fails, an empty secret stays empty |
| KeyRotation.Vault.RotateKey | internal/app/admin.go:54-134 | all or nothing: it succeeds exactly when every column opens under the old key; then every table is rotated and the key check opens under the new key; otherwise nothing changes |
| KeyRotation.RotationsCompose | internal/app/admin.go:58-134 | a chain of rotations carries every plaintext from the first key to the last |
| KeyRotation.OldKeyOpensNothing | internal/app/admin.go:58-134 | after rotation the old key opens nothing, empty columns are still empty, and the others open to the same plaintext, under their own associated data only |
| KeyRotation.MixedRowsAreStuck | internal/app/admin.go:54-58 | a row rotated in part opens fully under neither key, which is why rotation must be one transaction |
| RateLimit.Limiter.Allow | internal/app/server.go:331-355 | the answer and the new table for one call; the table never exceeds 10001 keys and no unexpired bucket is removed |
| RateLimit.Limiter.Sweep | internal/app/server.go:335-340 | deletes the expired buckets and no others |
| RateLimit.RefusedExactly | internal/app/server.go:331-355 | a call is refused exactly when its open window is used up or more than 10000 unexpired keys are held |
| RateLimit.WindowGrantsItsQuota | internal/app/server.go:345-354 | a window grants at least one call and at most its quota |
| RateLimit.AtMostTwoQuotas | internal/app/server.go:331-355 | over any run, every closed interval as long as the window contains at most twice the quota of grants for a key |
| EventStream.CutIsFirst | web/src/api.ts:106-108 | the cut is at the first blank-line separator |
| EventStream.FramingLosesNothing | web/src/api.ts:101-120 | consumed blocks plus buffer always equal the text so far, and neither holds a separator |
| EventStream.FramingContinues | web/src/api.ts:101-120 | framing a text in two reads gives the blocks of the whole text |
| EventStream.StreamChat | web/src/api.ts:98-122 | the nested loops give, for every chunking, what handling the blocks of the whole text gives |
| EventStream.PrintedEventsAreReceived | internal/app/ai.go:370-377 | parsing what the server prints returns the original events, for every chunking |
| EventStream.AnswerIsDelivered | internal/app/ai.go:370-385 | the client shows every step once and ends with the server's final text |
| EventStream.ErrorIsDelivered | internal/app/ai.go:370-385 | for every chunking the client shows every step before an error once and ends with the server's message |
| EventStream.MalformedDataIsThrown | web/src/api.ts:109-117 | data that does not parse ends the stream with an error |
| EventStream.InterruptedIsNotFinished | web/src/api.ts:118-122 | a stream cut off anywhere before its end never counts as finished |
| ShellQuote.QuoteRoundTrips | internal/app/agent_install.go:444 | a POSIX shell reads the quoted text as exactly one word, equal to the original, for every string without NUL |
| ShellQuote.CommandLineRoundTrips | web/src/api.ts:44 | a command line of quoted arguments is read back as those arguments |

## Left out

- Rounding: rates, averages and shares are exact reals and exact floors; the source's
  `float64` rounding, including `uint64(float64(...))`, is not modelled.
- Counter width: byte totals are unbounded naturals, so wrap-around of `uint64` sums is
  not modelled; subtractions are proved never to underflow.
- Time zones: local midnights are assumed to be real and strictly increasing, as for
  every fixed offset; `time.Date` at a midnight that a clock change skips is not covered.
- Clock reads: one operation reads the clock once, where the source may read it again
  within a loop.
- Cryptography: sealing is symbolic, digests are injective and fresh tokens never
  repeat; Argon2, HMAC signatures and redaction are not modelled.
- Encodings: JSON and UTF-8 are parameters that round-trip; their lengths are given.
- Binding columns last_seen (written by every authenticated request), last_current,
  version and status, and install jobs; the alert machine takes the time of the last
  current report as an input.
- Sample validation at the server: the time window and the uniqueness of interface
  names; other checks of `Sample.Validate` only reject more.
- CPU, memory, mount, GPU and other instantaneous readings of a report are arbitrary
  gauges.
- Durability of a rename after a power failure: the directory is not synced, and a
  completed save is taken to be on disk.
- Restart recovery runs before requests are served, under the single-instance lease; a
  second server instance is not modelled.
- Rows of rotated tables are all visible to the cursor: foreign keys guarantee the
  joins with `hosts`.
- monitor_events, alert deliveries, webhooks and their retries: they record what
  the alert machine emits.
- HTTP routing, sessions, cookies, connection limits, WebSocket, SSH and SFTP plumbing:
  input and output over libraries.
- React components, the renderer, translations and the download worker: user interface.
- Collector, checks and GPU probing: operating-system calls.
