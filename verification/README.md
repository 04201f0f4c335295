# Verified models of the station server

Dafny models of the parts of this Django project whose correctness no finite test
settles: heartbeat accounting, the approvals lifecycle, the ADIF logbook, the
SDR receiver, and four smaller algorithms. Each module follows one source file's
logic; `dafny verify dfyconfig.toml` checks everything.

**Heartbeat accounting.** `MaintenanceWindows` merges the SLA-excluded windows of a
monitor into ranges and proves them to be exactly their union. `Heartbeat` is the
service that records one beat a minute, folds expired beats into daily rows and
deletes them; its methods are proved against step functions. `HeartbeatConservation`
runs those steps in any order and proves that each monitor-day's summary plus its
remaining beats is the never-pruned history, however the beats were split into
batches. `DailyUptime` proves that pruning is invisible to a daily view that reads one
snapshot, and what a view sees when a prune commits between its reads. Times are
integer seconds and days have 86400 of them.

**Approvals.** `Approvals` holds the row, its two status readings and the permission
predicates. `ApprovalProtocol` is a machine of single steps: any number of deciders,
cancellers and sweepers hold stale copies and race through a conditional UPDATE, with
callback, re-save, audit row and signal as separate later steps; a callback may assign
the fields of the instance it is given. `ApprovalTheorems` states when decisions are
final and what holds in every interleaving, `ApprovalOutcomes` that every caller is told
what really happened, `ApprovalDeadlines` exactly when a decision lands late, and
`ApprovalSweep` what a bounded sweep does without competitors.

**ADIF logbook.** `Adif` is the tolerant scanning parser and the writer of the ADI
format of ADIF 3.1.4, `AdifRoundTrip` proves them inverse on records, `AdifImport` is the deduplicating
importer, `AdifExport` the exporter, and `AdifExportImport` relates the two.
`PythonText` has the string operations they share.

**Receiver.** `RadioLifecycle` is the life of the `rtl_fm` process across starts,
stops, retunes, seeks, deaths and server restarts. A restart can fall between any two
statements, so the operations are steps over a value `World`; the class `Receiver`
runs whole operations in place and is proved equal to the undisturbed run of the
steps. `RadioSeek` is the seek pipeline: peaks, greedy suppression, raster snapping
and stepping round the band.

**Smaller cores.** `Incidents` (failed beats collapsed into incidents) and
`IncidentRetention` (what pruning does to them), `Chunking`
(heading stack and overlapping windows), `Buckets` (bucketed rollups) and `Rigctl`
(line framing over a byte stream). `Sorting` and `Common` are shared helpers.

Some promises hold only under a condition the code does not check. For these the
exact condition is proved:

- Windows entered backwards (end before start) make the excluded time wrong unless a
  row returned before them absorbs them (`ListingSecondsAreUnion`). The query leaves
  the order of equal starts open; every order is right exactly if each backwards window
  is absorbed by one that starts strictly earlier (`EveryListingIsUnion`).
- With a retention of less than one day a minute can be pruned and recorded again, and
  is then counted twice (`ConservationNeedsRetention`).
- Resetting an epoch moves the view's denominator of days already folded and leaves
  their stored percentages alone. Stored and viewed value agree exactly if both
  denominators do, or nothing was ok and neither is empty (`FoldedDayIsStoredRow`); a
  run in which they differ is `ResetSeparatesRowAndView`.
- The deadline is tested before the claim. A decision is stored late exactly if its
  claim was stamped late and then won (`LateExactlyWhenStampedLate`). Approvals pass
  their test before the deadline all the same (`RowsOfEveryRun`); `cancel` makes no such
  test and can begin after it (`CancelCanStartAfterDeadline`).
- The documentation says that the kind callback never breaks the decision. It is handed
  the live instance, which is then re-saved: decisions are final over a run exactly if no
  re-save stores one that a callback changed before it returned (`DecisionsAreFinal`). A
  callback that raises changes none, and if those that return assign nothing, that is so
  (`DiscreetCallbacksStoreNothing`); any assignment the table's constraint takes can be
  stored (`AnyEditCanBeStored`). The theorems on runs of the protocol hold under that
  condition.
- A daily view reads summaries and beats by separate queries. If a prune commits in
  between it misses the batch (`TornTotal`), and agrees with the view exactly if that
  leaves the day's fraction as it is (`TornViewIsViewExactly`).
- A record in the last minute of the year 9999 makes the import raise instead of
  counting an error (`ImportAccountsForEverything`).
- Importing a log's own export changes nothing exactly if the normalised key of every
  readable contact it reaches is in the log (`OwnExportChangesNothing`). Contacts before
  the year 1000 are not readable, as their date is not written with eight digits
  (`WhenReadsBack`).
- An export restores a log exactly if its contacts are canonical and have distinct keys
  (`ExportRestoresLog`).
- A server restart between spawning `rtl_fm` and writing the pidfile loses a live
  receiver; at no other point does it (`TrackedExactlyOutsideGap`). The comment in the
  source that the pidfile bridges the restart is true outside this gap.
- Window settings keep every character exactly if windows are not empty and the
  overlap is not negative (`WindowsKeepText`).
- Moving the lookback of the incident feed makes a new identity exactly where it cuts
  an incident (`LookbackCutsIncident`), and so does every prune, whose cutoff lies well
  inside the lookback (`PruneCutsIncidents`).
- A bucketed series reports one count per key, the last bucket's. Whatever the buckets,
  it sums to the total exactly if those reported take every value once: one remainder,
  every value the dimension names in one of the others, and no other value in a band
  (`SeriesSumsExactly`). With distinct keys that is one remainder, no value named twice
  and only empty bands (`DistinctSeriesSums`): the remainder takes again what a band holds
  (`BandBesideRemainderCountsTwice`). A derived series sums exactly if its keys are
  distinct (`DerivedSeriesSumsToTotal`). The documentation of the bucketed series states
  the sum, and the drilldown's agreement, without conditions.
- A drilldown counts what the series reports for its key exactly if the first and the
  last bucket with that key take the same values (`DrilldownMatchesSeries`).
- The rigctld client keeps its buffer over `close` and after a time-out. The next
  request reads its own reply, whatever that is, exactly if the bytes left are a piece
  of a line without text (`LeftBytesAreHarmless`).

## Model

| member | source | states |
|---|---|---|
| MaintenanceWindows.GetExcludedRanges | apps/heartbeat/models.py:147-168 | the merged ranges are sorted, strictly separated, inside the query range, and cover an instant exactly when an SLA-excluded window does |
| MaintenanceWindows.MergeRows | apps/heartbeat/models.py:160-168 | the loop computes the merge of the rows in the order they came |
| MaintenanceWindows.ListingCoverage | apps/heartbeat/models.py:147-168 | in whatever order equal starts are returned, the merged ranges are separated, clipped and cover exactly the excluded instants |
| MaintenanceWindows.MergeStepKeepsInvariant | apps/heartbeat/models.py:160-167 | one pass of the merge loop keeps separation and coverage of the rows read so far |
| MaintenanceWindows.ListingSecondsAreUnion | apps/heartbeat/models.py:171-173 | for any order of equal starts the seconds equal the windows' union exactly when every backwards window is absorbed by a row before it; they never exceed it |
| MaintenanceWindows.EveryListingIsUnion | apps/heartbeat/models.py:149-158 | every order the query leaves open gives the union exactly when each backwards window is absorbed by a window that starts strictly earlier |
| MaintenanceWindows.TieOrderMatters | apps/heartbeat/models.py:149-158 | two windows of which one order gives their union and the other nothing |
| MaintenanceWindows.ExcludedSecondsAdditive | apps/heartbeat/models.py:171-173 | splitting a range at any point splits its excluded seconds |
| MaintenanceWindows.BackwardsWindowCountsNegative | apps/heartbeat/models.py:147-173 | a lone backwards window gives negative excluded time |
| Heartbeat.HeartbeatService.RunMonitorCheck | apps/heartbeat/services.py:21-57 | records exactly one beat for the current minute, overwriting a second run in it, and creates a missing epoch from the oldest beat; `created` says whether the minute was new |
| Heartbeat.HeartbeatService.OldestMinute | apps/heartbeat/models.py:105-120 | finds the monitor's oldest recorded minute |
| Heartbeat.HeartbeatService.ResetEpoch | apps/heartbeat/models.py:73-102 | replaces only this monitor's epoch, cut to the minute |
| Heartbeat.HeartbeatService.PruneOldHeartbeats | apps/heartbeat/services.py:102-121 | folds every expired beat into its day's row, deletes exactly those beats and returns their number |
| Heartbeat.HeartbeatService.FoldAndDelete | apps/heartbeat/services.py:115-121 | the transaction: rows after folding, and the store less the folded beats |
| Heartbeat.HeartbeatService.WriteDailySummaries | apps/heartbeat/services.py:174-258 | every touched monitor-day's row accumulates the batch's counts; no other row changes |
| Heartbeat.FoldGroups | apps/heartbeat/services.py:208-258 | the loop over groups folds each group once, in any order |
| Heartbeat.FoldedRow | apps/heartbeat/services.py:213-258 | one group's row: accumulated counts, prorated expectation and percentage |
| Heartbeat.SplitBatch | apps/heartbeat/services.py:215-232 | splitting at the merged ranges counts ok, failed and maintenance beats by their SLA class |
| Heartbeat.CountExcluded | apps/heartbeat/services.py:222-228 | the span loop counts each excluded beat once |
| Heartbeat.RangeCountsAreTallies | apps/heartbeat/services.py:222-231 | subtracting the in-range counts from the group's totals gives the class counts |
| HeartbeatConservation.Conservation | apps/heartbeat/services.py:102-121 | over every run with at least a day's retention, summary counts plus counts over the remaining beats equal the counts over the never-pruned history, per monitor, day and class |
| HeartbeatConservation.RunIsAccounted | apps/heartbeat/services.py:174-258 | after every run the rows are exactly the tallies of the pruned beats |
| HeartbeatConservation.StepKeepsAccount | apps/heartbeat/services.py:102-121 | recording, pruning and resetting each keep that account |
| HeartbeatConservation.DaysSurviveWindowChanges | apps/heartbeat/services.py:102-121 | over every run whose windows and settings change between events, with at least a day's retention throughout, a monitor-day's three summary counts and its remaining beats together are its never-pruned beats |
| HeartbeatConservation.PruneRowCount | apps/heartbeat/services.py:235-241 | one prune adds exactly its batch's tally to every row |
| HeartbeatConservation.SameMinuteCountedTwice | apps/heartbeat/services.py:102-121 | without retention a minute pruned and recorded again is counted twice |
| HeartbeatConservation.ConservationNeedsRetention | apps/heartbeat/services.py:111-113 | conservation holds of every run exactly when at least one day is retained |
| HeartbeatConservation.BatchIndependence | apps/heartbeat/services.py:174-183 | two runs that pruned the same beats in different batches have the same three counts and the same rows present |
| HeartbeatConservation.BatchIndependentRows | apps/heartbeat/services.py:174-183 | under the same epoch, never reset, their whole rows are equal, expectation and percentage included |
| HeartbeatConservation.RunKeepsRowFractions | apps/heartbeat/services.py:254-257 | after every run, resets included, a row's percentage is its own fraction over the larger of its beats and its stored expectation |
| HeartbeatConservation.RunKeepsRowsComplete | apps/heartbeat/services.py:136-162 | as long as a monitor's epoch is not reset its rows hold the expectation of the whole day |
| HeartbeatConservation.ExpectedOfCompletedDay | apps/heartbeat/services.py:136-162 | the expected count of a completed day no longer depends on when it is computed |
| DailyUptime.GetNonMaintenanceCounts | apps/heartbeat/status.py:159-177 | ok and observed beats outside excluded maintenance |
| DailyUptime.DailyUptimeMap | apps/heartbeat/status.py:452-534 | one entry for every day of the range, each the day's blended uptime |
| DailyUptime.OneDay | apps/heartbeat/status.py:488-533 | the uptime, or none, of one day from both sources |
| DailyUptime.SumSources | apps/heartbeat/status.py:501-511 | the two halves of a day are summed, never chosen between |
| DailyUptime.PruneIsInvisible | apps/heartbeat/status.py:488-533 | no prune changes any day of a view that reads one snapshot, whenever that is |
| DailyUptime.TornTotal | apps/heartbeat/status.py:469-510 | a view that reads the summaries before a prune and the beats after it counts neither half of the batch |
| DailyUptime.TornViewIsViewExactly | apps/heartbeat/status.py:469-533 | such a view agrees with the view exactly when it sees data and the counts without the batch make the same fraction, or sees none and the view has no value |
| DailyUptime.NeutralOnPastDay | apps/heartbeat/status.py:521-531 | for a past day judged by its expectation that is exactly when none of its ok beats is in the batch |
| DailyUptime.ViewIsUnprunedView | apps/heartbeat/status.py:452-534 | over every run the view equals the view of the never-pruned history |
| DailyUptime.UptimeInRange | apps/heartbeat/status.py:513-531 | a day has a value exactly when it has data and a denominator; the value is the day's ok beats over that denominator, which they never exceed, so it lies in 0..100 and the cap never binds |
| DailyUptime.FoldedDayIsStoredRow | apps/heartbeat/services.py:254-257 | after every run the stored percentage of a fully folded completed day is its view exactly when the stored and the current denominator agree, or nothing was ok and neither is empty |
| DailyUptime.NeverResetRowIsView | apps/heartbeat/status.py:521-527 | it is the view for a monitor whose epoch was never reset |
| DailyUptime.ResetSeparatesRowAndView | apps/heartbeat/models.py:73-102 | a run of one beat, its fold and a reset after which the stored percentage is not the view |
| Approvals.ScopesAgreeWithBadge | apps/approvals/models.py:35-75 | each effective-status queryset is exactly the rows whose effective status it names |
| Approvals.ScopesPartitionTable | apps/approvals/models.py:54-75 | the five querysets partition the table at every instant |
| Approvals.ScoperAgreesWithPermission | apps/approvals/permissions.py:53-112 | the queryset scoper and the row predicate agree, and whoever can decide or cancel a row can see it |
| ApprovalProtocol.StepKeepsInv | apps/approvals/services.py:168-283 | every step of every actor keeps the protocol invariant, unless it re-saves a decision that its callback changed |
| ApprovalProtocol.RunKeepsInv | apps/approvals/services.py:103-340 | so does every interleaving that stores no such decision |
| ApprovalProtocol.UpdateKeepsInv | apps/approvals/services.py:168-176 | the conditional UPDATE has at most one winner per row |
| ApprovalProtocol.ResaveKeepsDecision | apps/approvals/services.py:179-211 | the winner's unconditional re-save leaves the decision as it is exactly when the callback did, or left values the table refuses |
| ApprovalTheorems.StepKeepsDecision | apps/approvals/services.py:168-211 | a step never edits the request or changes its winner, and it changes a terminal decision exactly when it re-saves one that the callback changed |
| ApprovalTheorems.DecisionsAreFinal | apps/approvals/services.py:179-211 | over every run no step changes a decision exactly when no re-save stores one that its callback changed before it returned |
| ApprovalTheorems.DiscreetCallbacksStoreNothing | apps/approvals/services.py:182-192 | over every run in which callbacks that return assign no field none is stored; what a raising callback assigned is discarded |
| ApprovalTheorems.AnyEditCanBeStored | apps/approvals/services.py:186-211 | a run in which a callback's assignment, any the table's constraint takes, replaces the decision of an approved row |
| ApprovalTheorems.TerminalIsForever | apps/approvals/services.py:168-283 | over every run that stores no such decision a request leaves pending at most once and its status, decider, time, note and winner never change |
| ApprovalTheorems.EffectsOnlyByWinner | apps/approvals/services.py:179-223 | in every state of such a run callback, audit row and signal come only from the winner, at most once each |
| ApprovalOutcomes.CallersAreToldTheTruth | apps/approvals/services.py:168-283 | in every state of such a run a caller that has ended finished exactly if it won other than by expiry, and then the row carries its own decision, actor and note with one audit row and signal; told NotPending it won nothing and had no effect, or performed the lazy expiry; told anything else it won nothing and had no effect; a caller whose re-save the table refused won, and its decision stands without audit row and signal |
| ApprovalOutcomes.StepKeepsOutcomes | apps/approvals/services.py:168-283 | every such step of every process keeps the link between where a process is and what it has won |
| ApprovalTheorems.RowsOfEveryRun | apps/approvals/models.py:143-149 | in every state of such a run pending rows have no decider or time, terminal rows a time, expired rows no decider, and a decided row's decider passed the guards before the deadline on the pending copy they read |
| ApprovalTheorems.OnlyDecisionsAreVisible | apps/approvals/models.py:158-175 | a step changes a row's effective status exactly when it is a decider's or canceller's winning UPDATE, or stores another status that a callback assigned; expiry sweeps are never visible |
| ApprovalDeadlines.LateExactlyWhenStampedLate | apps/approvals/services.py:236-283 | over every such run a decision is stored at or after its deadline exactly when the process that won it stamped its claim at or after the deadline |
| ApprovalDeadlines.CancelCanStartAfterDeadline | apps/approvals/services.py:269-283 | a cancellation whose read, test and stamp all come after the deadline |
| ApprovalTheorems.ApprovalCanLandAfterDeadline | apps/approvals/services.py:236-257 | a run in which an approval that passed its test in time is stamped and stored after the deadline |
| ApprovalSweep.ApprovalStore.MarkExpired | apps/approvals/services.py:299-340 | flips exactly the min(L, n) overdue rows of earliest expiry, leaves the others, and reports truncation exactly when n exceeds L |
| ApprovalSweep.ApprovalStore.ExpireAll | apps/approvals/services.py:324-332 | the loop flips each selected row once and counts them |
| ApprovalSweep.OrderByDeadline | apps/approvals/services.py:312-316 | lists every overdue row once, earliest expiry first |
| ApprovalSweep.BacklogAfterCalls | apps/approvals/services.py:299-340 | after k bounded calls min(k * L, n) rows are gone |
| ApprovalSweep.BacklogDrainsInCeil | apps/approvals/services.py:299-308 | the backlog is empty exactly from call ceil(n / L) on |
| ApprovalSweep.LazyRefinesEager | apps/approvals/models.py:165-175 | sweeping any rows at any instant changes no effective status from then on, and after a full sweep the stored status is the effective one |
| PythonText.DecimalReadsBack | apps/cw/logbook.py:212-214 | a written length reads back as itself |
| Adif.ParseAdif | apps/cw/logbook.py:123-152 | the cursor loop computes the parse of the remaining text |
| Adif.ScanBody | apps/cw/logbook.py:134-152 | the scanning loop ends on every input and loses no record |
| Adif.ScanToken | apps/cw/logbook.py:135-149 | one pass steps strictly forward and accounts for what it stepped over |
| Adif.TakeField | apps/cw/logbook.py:145-149 | a field takes as many characters as there are, whatever they contain |
| AdifRoundTrip.MatchWrittenTag | apps/cw/logbook.py:120-120 | the tag pattern matches a written field with its name and length |
| AdifRoundTrip.FieldIsNext | apps/cw/logbook.py:135-144 | before a written field the scanner takes the field, even if its value holds an end-of-record marker |
| AdifRoundTrip.ParseFields | apps/cw/logbook.py:254-254 | a written record parses to exactly its fields, then the rest of the text |
| AdifRoundTrip.HeaderIsSkipped | apps/cw/logbook.py:219-225 | the written header is skipped whole |
| AdifRoundTrip.ParseOfLogText | apps/cw/logbook.py:123-152 | parsing a written log gives one record per written record with exactly its fields and values, whatever the values contain |
| AdifImport.MinuteIdentifies | apps/cw/logbook.py:181-182 | two times have the same minute number exactly when they lie in the same calendar minute |
| AdifImport.InMinute | apps/cw/logbook.py:181-183 | the importer's time range is exactly the record's minute |
| AdifImport.Logbook.ImportAdif | apps/cw/logbook.py:170-208 | the table, the counts and the raised flag are those of the import of the parsed records |
| AdifImport.Logbook.ImportAll | apps/cw/logbook.py:174-208 | the loop over the records does the same record by record |
| AdifImport.Logbook.ImportRecord | apps/cw/logbook.py:175-207 | one record is counted as an error or a duplicate, or added, or stops the import |
| AdifImport.StepAccounts | apps/cw/logbook.py:175-207 | one record raises exactly one counter, and an added contact's key is new |
| AdifImport.ImportAccountsForEverything | apps/cw/logbook.py:170-208 | counts sum to the records, errors are the unreadable ones, stored contacts stay, new keys are distinct and new, every readable record's contact is in the log, and it stops early exactly at a record in the last minute of the calendar |
| AdifImport.ImportIsIdempotent | apps/cw/logbook.py:170-172 | importing the same text again creates nothing and changes nothing |
| AdifExport.FieldsToWrite | apps/cw/logbook.py:228-253 | the fields written for a contact, empty ones left out |
| AdifExport.AdifExport | apps/cw/logbook.py:217-255 | the lines written are those of the log text of all contacts |
| AdifExport.SlotReadsBack | apps/cw/logbook.py:228-254 | a written field reads back with its value, an omitted one as empty |
| AdifExportImport.ParseOfExport | apps/cw/logbook.py:217-255 | parsing an export gives one record per contact, in order |
| AdifExportImport.WhenReadsBack | apps/cw/logbook.py:155-167 | a written time reads back to the second exactly when its year has four digits |
| AdifExportImport.ExportedFieldsRead | apps/cw/logbook.py:228-254 | each of a contact's fields reads back as exported |
| AdifExportImport.ExportedRecordReads | apps/cw/logbook.py:175-179 | when an exported contact is readable, and as what call and time |
| AdifExportImport.OwnExportChangesNothing | apps/cw/logbook.py:170-208 | a log is left unchanged by importing its own export exactly when the normalised key of every readable contact before the first one that stops the import is in the log |
| AdifExportImport.NormalisedExportChangesNothing | apps/cw/logbook.py:175-185 | so it is when all calls are stored in the importer's form |
| AdifExportImport.UnnormalisedAloneIsImported | apps/cw/logbook.py:175-185 | a lone contact with an unnormalised call is imported again |
| AdifExportImport.NormalTwinPreventsImport | apps/cw/logbook.py:175-185 | beside its normal twin in the same minute it is not |
| AdifExportImport.ReadsBackExactly | apps/cw/logbook.py:175-207 | an exported contact reads back as itself and can be imported exactly when it is canonical |
| AdifExportImport.ExportRestoresLog | apps/cw/logbook.py:170-255 | importing its export into an empty log restores a log exactly if and only if its contacts are canonical with distinct keys |
| RadioLifecycle.StepKeepsInv | apps/cw/radiodaemon.py:383-413 | every statement of every operation, death and restart keeps the lifecycle invariant, and a restart breaks it exactly in the gap |
| RadioLifecycle.TrackedExactlyOutsideGap | apps/cw/radiodaemon.py:503-507 | throughout a run the pidfile names every live receiver exactly when no restart falls between the spawn and the pidfile write |
| RadioLifecycle.ReceiverSafety | apps/cw/radiodaemon.py:450-592 | in every such run at most one receiver is alive, one is spawned only when none is, and a stop leaves none |
| RadioLifecycle.StopEndsAll | apps/cw/radiodaemon.py:536-554 | a complete stop leaves no receiver alive, supervised or not |
| RadioLifecycle.GapIsReachable | apps/cw/radiodaemon.py:494-504 | four steps into the first start the receiver is alive and not yet in the pidfile |
| RadioLifecycle.StopMissesLostReceiver | apps/cw/radiodaemon.py:499-507 | after a restart in the gap a complete stop leaves the receiver alive and the next start makes two |
| RadioLifecycle.Receiver.ReapStale | apps/cw/radiodaemon.py:383-413 | ends and forgets what the pidfile names unless the server supervises it |
| RadioLifecycle.Receiver.StopLocked | apps/cw/radiodaemon.py:536-554 | ends the child, then reaps; none is left |
| RadioLifecycle.Receiver.StartLocked | apps/cw/radiodaemon.py:450-533 | the world after the whole start, with each way it can fail |
| RadioLifecycle.Receiver.Start | apps/cw/radiodaemon.py:557-567 | succeeds only with the new receiver supervised, named by the pidfile and the only one alive |
| RadioLifecycle.Receiver.Stop | apps/cw/radiodaemon.py:570-572 | the method is the undisturbed run of the steps |
| RadioLifecycle.Receiver.Retune | apps/cw/radiodaemon.py:575-592 | stop then start as one operation |
| RadioLifecycle.Receiver.Seek | apps/cw/radiodaemon.py:744-786 | stop, sweep, and start on the found station; it raises whenever none was found, also after resuming |
| RadioLifecycle.SeekOutcome | apps/cw/radiodaemon.py:766-786 | a seek ends playing exactly when it found a station, or found none and had been playing before |
| RadioSeek.FindStations | apps/cw/radiodaemon.py:654-689 | the candidate and selection loops compute the stations of the sweep |
| RadioSeek.SnapIsNear | apps/cw/radiodaemon.py:685-687 | snapping moves a peak at most half a raster step, onto the raster |
| RadioSeek.SnapsApart | apps/cw/radiodaemon.py:55-64 | both bands' constants fit: a peak that is not suppressed snaps farther than the guard from every kept station |
| RadioSeek.StationsAreThePeaks | apps/cw/radiodaemon.py:654-689 | stations rise, lie on the raster and in the band, farther apart than the guard; each is a snapped peak, and every peak above the threshold is within the separation of one at least as strong |
| RadioSeek.SweepIsInBand | apps/cw/radiodaemon.py:634-651 | clipping a sweep keeps exactly the bins inside the band |
| RadioSeek.NowhereToGo | apps/cw/radiodaemon.py:692-712 | from any dial position a step finds nothing exactly when all stations lie within the guard |
| RadioSeek.StepIsCyclic | apps/cw/radiodaemon.py:692-712 | a step from a station leads to its neighbour in the cycle |
| RadioSeek.SeekIsACycle | apps/cw/radiodaemon.py:692-712 | on any sweep's stations a step back undoes a step, and n ups pass each of the n stations once and return |
| Sorting.SortIsStable | apps/heartbeat/feeds.py:79-79 | the sort keeps the order of elements that tie |
| Incidents.CollapseFails | apps/heartbeat/feeds.py:60-77 | mutating the newest incident in place yields the collapse of all failures |
| Incidents.Incident.Absorb | apps/heartbeat/feeds.py:69-72 | one more failure moves the incident's end, raises its count and replaces its note only by a given one |
| Incidents.RecentIncidents | apps/heartbeat/feeds.py:46-80 | the incidents of the lookback, newest first, up to the limit |
| Incidents.SortNewestFirst | apps/heartbeat/feeds.py:79-79 | the incidents sorted by start, newest first |
| Incidents.SplitIsMaximal | apps/heartbeat/feeds.py:62-77 | the failures are cut into runs that cannot be made longer |
| Incidents.MaximalRunsAreUnique | apps/heartbeat/feeds.py:62-77 | there is only one way to cut them so |
| Incidents.CollapseSummarisesRuns | apps/heartbeat/feeds.py:62-77 | incidents are exactly the summaries of the maximal runs: monitor, first and last time, last note, count |
| Incidents.BeatsSumToFailures | apps/heartbeat/feeds.py:69-76 | every failure is counted in exactly one incident |
| Incidents.IncidentStarts | apps/heartbeat/feeds.py:103-105 | an identity exists exactly at a failed beat with five quiet minutes before it |
| Incidents.NewerKeepsIdentities | apps/heartbeat/feeds.py:103-105 | newer failures keep every incident's identity |
| Incidents.LookbackCutsIncident | apps/heartbeat/feeds.py:53-58 | moving the lookback start adds an identity exactly where it cuts an incident |
| Incidents.RecentKeepsNewest | apps/heartbeat/feeds.py:79-80 | the limit keeps the newest incidents and drops none newer than those kept |
| IncidentRetention.PruneCutsIncidents | apps/heartbeat/services.py:102-121 | a prune removes from the feed exactly the incidents that began before its cutoff, keeps the others, and adds an identity exactly where the cutoff falls into an incident |
| Chunking.ChunkMarkdown | apps/help/chunking.py:23-63 | the heading loop yields the passages of all sections in order |
| Chunking.Window | apps/help/chunking.py:66-79 | the passages of one stripped section body |
| Chunking.LongWindows | apps/help/chunking.py:75-79 | the window loop yields the windows that are not blank |
| Chunking.StackIsEnclosureChain | apps/help/chunking.py:51-57 | the stack is the exact chain of enclosing headings with strictly rising levels |
| Chunking.StripIsStretch | apps/help/chunking.py:59-61 | stripping keeps one stretch of the text and drops only blanks |
| Chunking.WindowsKeepText | apps/help/chunking.py:75-79 | every body keeps all non-blank characters exactly when windows are not empty and the overlap is not negative |
| Chunking.DocumentKeepsText | apps/help/chunking.py:33-63 | every non-blank character outside the headings is quoted at its place by a passage whose path names exactly the enclosing headings |
| Chunking.DocumentPassagesAreShort | apps/help/chunking.py:72-78 | no passage is longer than the limit |
| Buckets.CollectDimensionValues | apps/datasets/buckets.py:32-41 | every value named by a categorical bucket |
| Buckets.BucketedSeries | apps/datasets/core.py:648-667 | the values reported are the aggregate looked up by each bucket's key |
| Buckets.ReportedIsReporting | apps/datasets/core.py:654-664 | each bucket reports the count of the last bucket with its key |
| Buckets.ReportedSumsToRows | apps/datasets/core.py:636-637 | if each row falls in exactly one reporting bucket the reported values sum to the rows |
| Buckets.SeriesSumsExactly | apps/datasets/core.py:636-637 | for any list of buckets the series sums to the rows, for all rows, exactly when the reported buckets hold one remainder, every value the dimension names falls in one of the others, and their bands hold no other values |
| Buckets.DistinctSeriesSums | apps/datasets/core.py:636-637 | with distinct keys, and remainders that name nothing, exactly when there is one remainder, no value is named by two buckets and every band is empty |
| Buckets.BandBesideRemainderCountsTwice | apps/datasets/buckets.py:44-63 | a band beside a remainder counts its rows twice although keys are distinct and no value is named twice |
| Buckets.RepeatedKeyLosesRows | apps/datasets/core.py:654-664 | a repeated key loses rows although no value is named twice |
| Buckets.BandsCountOnce | apps/datasets/buckets.py:60-63 | contiguous bands with an open end take every value from the first band up exactly once |
| Buckets.DeriveBuckets | apps/datasets/buckets.py:71-106 | the derived buckets, including the default cap, the cap of -1 and the refused ones |
| Buckets.RankedIsRanking | apps/datasets/buckets.py:91-94 | one tally per value with its row count, most rows first, then by value |
| Buckets.DerivedTakesOnce | apps/datasets/buckets.py:71-106 | a row of the scope falls in exactly one derived bucket |
| Buckets.DerivedSeriesSumsToTotal | apps/datasets/core.py:623-667 | a series derived from the full scope sums to the total of every filtered subset exactly when the derived keys are distinct |
| Buckets.NamedAreMostFrequent | apps/datasets/buckets.py:74-79 | no value left to the remainder ranks above a named one |
| Buckets.DrilldownMatchesSeries | apps/datasets/core.py:413-436 | a drilldown counts what the series reports for its key, for all rows, exactly when the first and the last bucket with the key take the same values |
| Buckets.DistinctDrilldowns | apps/datasets/core.py:413-436 | so it does whenever keys are distinct |
| Buckets.DerivedKeysAreDistinct | apps/datasets/buckets.py:81-82 | derived keys are distinct exactly when the named values print differently |
| Rigctl.RigctldClient.Connect | apps/cw/rigctl.py:34-39 | a new stream, with the buffer as it was |
| Rigctl.RigctldClient.Close | apps/cw/rigctl.py:41-46 | the connection ends and the buffer stays |
| Rigctl.RigctldClient.ReadLine | apps/cw/rigctl.py:55-66 | the line returned and the bytes left depend only on the pending bytes and how they end, not on the pieces they arrive in; nothing is lost on an error |
| Rigctl.RigctldClient.Ask | apps/cw/rigctl.py:73-85 | the reply and the bytes left are those of the pending stream |
| Rigctl.RigctldClient.Request | apps/cw/rigctl.py:68-85 | the same, connecting first if need be |
| Rigctl.CutLineOf | apps/cw/rigctl.py:65-65 | a line ends at its first newline whatever follows |
| Rigctl.ReplyIsConsumed | apps/cw/rigctl.py:76-85 | a request consumes exactly its own reply, also when it raises |
| Rigctl.SessionStaysInStep | apps/cw/rigctl.py:68-85 | over a session in which every reply arrives in time each request gets its own reply, whatever errors the replies before it reported |
| Rigctl.LeftBytesAreHarmless | apps/cw/rigctl.py:55-85 | after bytes left in the buffer a request reads its own reply, for every reply and whatever follows, exactly when the bytes are a piece of a line without text |
| Rigctl.LateLineIsHarmful | apps/cw/rigctl.py:57-61 | a whole line that came too late never is |
| Rigctl.StaleBytesReachNextConnection | apps/cw/rigctl.py:41-46 | a client whose server closed inside a line reads the piece in front of the first reply of its next connection |
| Rigctl.LateReplyAnswersNextRequest | apps/cw/rigctl.py:60-61 | after a time-out the late reply answers the next request |

## Left out

- Heartbeat.FoldedRow: the row's average response time, which the source rounds at every batch, so it depends on the batches.
- Heartbeat.HeartbeatService.WriteDailySummaries: the same average.
- Rounding of percentages and signal strengths to display digits.
- Time zones and daylight saving: a day is 86400 seconds, and logged times are UTC.
- Text beyond ASCII: `\w`, `\d`, case and whitespace are those of ASCII.
- `int()` on more than 4300 digits, which Python refuses.
- Headings are given: the heading pattern and frontmatter handling are not modelled.
- Reading frequencies and the band table: parameters of the import.
- Frequencies finer than 0.0001 MHz, which the export rounds.
- Column widths other than the cuts the import makes: the database may refuse longer calls and bands.
- Years below 1000 as glibc formats them (`%Y` unpadded); other C libraries pad.
- RadioLifecycle.ReceiverSafety: pidfile writes and kills succeed, no process number is given to two receivers, and one server runs at a time, as the source assumes.
- RadioLifecycle: module state is a value, not an object, because a restart can fall between any two statements; the class `Receiver` has the in-place form of undisturbed operations.
- The audio flags `_sink_open` and `_sink_gone`, which successive pump threads share.
- Parsing the text of the sweep's output: the bins it holds are given.
- Rejecting a bad direction, frequency or device before an operation begins: nothing happens then.
- Chunking.Window: a negative window length, which Python would read as counted from the end.
- Incidents.RecentIncidents: a negative limit, for the same reason.
- Sound, subprocess output, sockets and the sweep itself: abstract outcomes.
- Callbacks that write to the database themselves: only what they assign to the claimed fields of the instance they are given is modelled, and no transaction around the whole operation that would roll the claim back.
- ApprovalSweep.ApprovalStore.ExpireAll: the callbacks of swept rows assign no field; what such a field does is in `ApprovalProtocol`.
- ApprovalSweep.ApprovalStore.MarkExpired: the same.
- The pending cap of approvals: check-then-insert, so it holds only for sequential filing.
- Windows that change while the service runs: `Config` is constant in the theorems on runs, except in `DaysSurviveWindowChanges`; the division of a day's beats into classes follows the windows of each fold.
- Buckets without a key, a lower bound or a value, for which the source raises.
- Deleting users or rows, and changing a request's expiry.
- Notifications, e-mail and webhooks: only the number of callbacks, audit rows and signals is kept.
- Approvals lookups of kinds and hooks: their results are parameters of a step.
- The window coverage figure, the hourly, minute and calendar views: the daily view's argument again, with weaker claims.
- NULL column values in buckets: their handling inside an IN list is the database's.
- The order of maintenance windows with equal starts inside the expected counts of a day: one order stands for all, which matters only for backwards windows that some order does not absorb (`EveryListingIsUnion`).
- The help-page discovery, HTTP, MCP and template layers, band-plan tables and registries: no invariant beyond their data.
