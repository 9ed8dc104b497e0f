# FoxHole: a verified model

This project models the parts of FoxHole for OpenWrt in which an algorithm or a protocol decides something, and
proves what they promise. `dafny verify dfyconfig.toml` checks all of it.

| file | what it models |
|---|---|
| `TelemetryStore.dfy`, `Charts.dfy` | the 30-day telemetry store: compaction rule, fast insert, rebuild, whole runs |
| `Traffic.dfy` | rates, totals, averages and peaks |
| `Timeline.dfy`, `Render.dfy` | gap segmentation, min/max decimation, the polyline |
| `DraftSaver.dfy` | the optimistic settings saver with conflict retry |
| `UpdatePanel.dfy`, `BackupPanel.dfy` | plan/apply and restore with an uncertain outcome |
| `Bridge.dfy` | the table of pending requests |
| `SecurityEvidence.dfy` | the security evidence checker: findings and import closure |
| `Elf.dfy` | bounded ELF reading of the transaction helper |
| `IndexedAuth.dfy`, `AssetNames.dfy` | indexed authentication of packages, indexes and keys |
| `Ustar.dfy`, `BundleTransport.dfy` | the bundle transport and its ustar archive (IEEE Std 1003.1-2017, pax utility) |
| `HttpsPolicy.dfy`, `Fetch.dfy` | the URL recogniser and the callbacks of the recovery fetcher |
| `ProgressMeter.dfy` | the arithmetic of its progress meter |
| `Collections.dfy`, `Wrappers.dfy` | bytes, facts about sequences and sets, optional and refused results |

The files follow one plan. Code that works step by step is a method or a class whose contract equates the new state
with a specification function, or a decision with a declarative predicate (accepted exactly if). What the source
promises is then proved about that function or predicate, for all inputs and all runs.

The four browser protocols and the fetcher are state machines. A class holds the variables of the source; each method
is the stretch of code between two `await`s or one callback. Its contract says that it takes exactly one step of the
pure `Step` function (`Next` in the bridge, where the order in which a map is visited stays open), that it keeps
`Valid()`, and what a caller may rely on. The environment is free: it chooses every event, its order and its reply.
Theorems range over all sequences of events. Where a theorem needs something of the environment, the predicate is named:
`Undeceived` (no reply of the kind that is proved to break the property; in the update panel plan ids are new, too),
`Orderly` and `Calm` (replies in the order of the requests, as special cases), `Possible` (what the HTTP library
may report), `Clocked` and `Growing` (a clock that does not run back, and more and more data).

A rule that a method and its specification share says nothing by that agreement alone. Beside each such rule stands
a statement that does not name it: in numbers (`Rebuilt`, `Upkept`, `Linked`, `Column`, `Metered`), in the
fields of records and messages (`Handled`, `Answered`, `AnswerRead`, `RatesFromFields`, `HeaderLayout`), in characters
(`GrammarInCharacters`, `NamesInCharacters`), in the words of the documents (`Acceptable`, `Qualified`), or at the
offsets of a file format (`LaidOut`, with an independent writer of ELF headers).

Times are integer milliseconds (microseconds in the security evidence, seconds in the progress meter); counters, rates
and chart values are exact reals. Offsets of the fetcher are 64-bit and its clocks 32-bit; the places where a product or
a difference could leave its width are stated and proved.

Some promises do not hold of the code as it stands. Each has a lemma with a concrete run or input, and a theorem that
says under which condition the code does keep it:

- `DraftSaver.ClosingLosesAnEdit`: closing the dialog while a request is under way loses later edits; `LostIff` says
  exactly which edits any run loses.
- `DraftSaver.ConflictRetryOverwrites`: the conflict retry replaces what the other writer stored.
- `UpdatePanel.OutOfOrderAppliesTwice`: a delayed job reply can clear a newer doubt. `ClearedIff` and
  `SecondSubmissionIff` give the exact events; without them no order of replies applies a plan twice.
- `BackupPanel.OverlappingReadLosesTrack`: a status read of the timer that overlaps a restore can end its doubt.
  `TrackIsLostIffDeceived` gives the exact replies; without them no order of replies sends a second restore.
- `Fetch.EmptySuccess`: exit status 0 does not imply that a body was received; `ZeroExactlyIf` says when it comes.
- `ProgressMeter.FinishedMayShow99` and `EstimateMayWrap`, with `FinishedIsHundredIff`, `NarrowingIsExactIff` and
  `ShownTimeIsRight`; `BarProductIsSafeIff` and `EstimateProductIsSafeIff` are the limits of its products. A terminal
  may be up to 29999 columns wide, but the star product is safe for all sizes only up to a bar of 1024.

Some checks of the source are proved to follow from the ones before them: `Elf.TableLiesInTheSegment`,
`IndexedAuth.CompletenessIsImplied`, `SecurityEvidence.RawComparisonSuffices`, `BundleTransport.LengthCheckHolds`.

## Model

| member | source | states |
|---|---|---|
| `TelemetryStore.NormalizeSamples` | package/foxhole-openwrt-client/htdocs/luci-static/resources/foxhole/charts.js:68-81 | the rebuild keeps exactly the last values of their kind (own time in the last 15 minutes, five-minute stretch before that) inside the 30 days before and the minute after the clock, in order of time, unless 9000 later ones push them out |
| `TelemetryStore.RebuildInNumbers` | package/foxhole-openwrt-client/htdocs/luci-static/resources/foxhole/charts.js:68-81 | the same of the specification of a rebuild, with the numbers of the source and without its bucket key |
| `TelemetryStore.EveryKindIsKept` | package/foxhole-openwrt-client/htdocs/luci-static/resources/foxhole/charts.js:75-77 | under the cap every old value in the window keeps a sample of its own five minutes, every recent one a sample of its own time |
| `TelemetryStore.SurvivorsSnoc` | package/foxhole-openwrt-client/htdocs/luci-static/resources/foxhole/charts.js:72-78 | one more value replaces the survivor of its key or is ignored, which is what `map.set` does to the table |
| `TelemetryStore.IncreasingUnique` | package/foxhole-openwrt-client/htdocs/luci-static/resources/foxhole/charts.js:79-80 | a list sorted by distinct times is determined by its points, so any sort gives the same result |
| `TelemetryStore.InsertSample` | package/foxhole-openwrt-client/htdocs/luci-static/resources/foxhole/charts.js:83-103 | the two binary searches, the splice and the slice leave exactly: the store with equal times replaced, points before the cutoff dropped, the newest 9000, in order |
| `ChartsModel.Charts.Update` | package/foxhole-openwrt-client/htdocs/luci-static/resources/foxhole/charts.js:222-245 | every branch of `update` (rebuild, late point, fast insert, nothing) gives the specified store, and keeps it increasing, capped and free of points later than a minute after the latest clock |
| `ChartsModel.UpdateInNumbers` | package/foxhole-openwrt-client/htdocs/luci-static/resources/foxhole/charts.js:222-245 | when an update rebuilds and from what, when it only puts the point in, what stays, and when the next rebuild is due, in the numbers of the clock |
| `ChartsModel.RevisionTells` | package/foxhole-openwrt-client/htdocs/luci-static/resources/foxhole/charts.js:62-66 | two histories have one fingerprint exactly if their lengths and the times of their first and last entries agree |
| `ChartsModel.Charts.Clear` | package/foxhole-openwrt-client/htdocs/luci-static/resources/foxhole/charts.js:247-252 | clearing returns to the initial store |
| `ChartsModel.Charts.PointsBetween` | package/foxhole-openwrt-client/htdocs/luci-static/resources/foxhole/charts.js:286-302 | the two binary searches return exactly the samples with start <= time <= end, for all bounds, in order |
| `ChartsModel.UpdatedIsSound` | package/foxhole-openwrt-client/htdocs/luci-static/resources/foxhole/charts.js:222-245 | whatever the store and the payload: the result is increasing, the cap holds, and each point was there before or fits the window |
| `ChartsModel.NormalisedIffFixed` | package/foxhole-openwrt-client/htdocs/luci-static/resources/foxhole/charts.js:68-81 | a store is left alone by a rebuild exactly if it is increasing, capped, inside the window and has one point per key |
| `ChartsModel.RebuildNormalises` | package/foxhole-openwrt-client/htdocs/luci-static/resources/foxhole/charts.js:68-81 | every rebuild ends in such a store, so rebuilding is idempotent |
| `ChartsModel.FastInsertIsRebuild` | package/foxhole-openwrt-client/htdocs/luci-static/resources/foxhole/charts.js:83-103 | on a normalised store the fast insert of a recent point equals the full rebuild with that point, including replacement and trimming |
| `ChartsModel.KeysStayShared` | package/foxhole-openwrt-client/htdocs/luci-static/resources/foxhole/charts.js:75-76 | points that share a bucket at one clock share it at every later clock |
| `ChartsModel.LastWithKey` | package/foxhole-openwrt-client/htdocs/luci-static/resources/foxhole/charts.js:75-77 | for every point in the window some survivor of the same key is at least as late |
| `ChartsModel.CompactIsSurvivors` | package/foxhole-openwrt-client/htdocs/luci-static/resources/foxhole/charts.js:68-81 | on an increasing store the last value of a key in list order is the latest in time |
| `ChartsModel.CompactTwice` | package/foxhole-openwrt-client/htdocs/luci-static/resources/foxhole/charts.js:68-81 | compacting at one clock and again at a later one is compacting once at the later one |
| `ChartsModel.CompactAppend` | package/foxhole-openwrt-client/htdocs/luci-static/resources/foxhole/charts.js:83-92 | inserting the newest point commutes with compaction |
| `ChartsModel.EquivalentStep` | package/foxhole-openwrt-client/htdocs/luci-static/resources/foxhole/charts.js:222-245 | one update keeps the store and the full log indistinguishable to every later compaction |
| `ChartsModel.SeesHistory` | package/foxhole-openwrt-client/htdocs/luci-static/resources/foxhole/charts.js:226-236 | a history is read once: the first update acts as if the store held it, later ones as if there were none |
| `ChartsModel.IncrementalEqualsOneShot` | package/foxhole-openwrt-client/htdocs/luci-static/resources/foxhole/charts.js:222-245 | over every run of ordered points under the cap, whose payloads carry one history, each maintenance step leaves exactly the rebuild of the full log (history, then points), and so does a rebuild at any later clock |
| `ChartsModel.HistoryChangeEqualsOneShot` | package/foxhole-openwrt-client/htdocs/luci-static/resources/foxhole/charts.js:226-236 | when a later payload brings another history, of whatever kind, the rebuild is that of the full log with the new history and the new point behind it |
| `Traffic.RateIsIncrement` | package/foxhole-openwrt-client/htdocs/luci-static/resources/foxhole/charts.js:304-311 | a rate exists exactly on admissible pairs, is never negative, and times the seconds gives back the counter increment |
| `Traffic.RatesFromFields` | package/foxhole-openwrt-client/htdocs/luci-static/resources/foxhole/charts.js:304-311 | which fields each of the four rates is read from, when there is one, and that it is the increment per second of times in milliseconds |
| `Traffic.StatOf` | package/foxhole-openwrt-client/htdocs/luci-static/resources/foxhole/charts.js:313-338 | total is the sum of increments over admissible pairs; average times elapsed is total; 0 <= average <= peak; all three are absent together |
| `Traffic.Accumulate` | package/foxhole-openwrt-client/htdocs/luci-static/resources/foxhole/charts.js:319-329 | the loop over adjacent pairs adds up rate times seconds, the seconds and the peak of exactly the pairs with a rate |
| `Traffic.CountsIffLinked` | package/foxhole-openwrt-client/htdocs/luci-static/resources/foxhole/charts.js:322-333 | there is a total exactly if some adjacent pair is admissible |
| `Traffic.PeakIsLargest` | package/foxhole-openwrt-client/htdocs/luci-static/resources/foxhole/charts.js:328 | the peak is attained by a pair and no rate exceeds it |
| `Traffic.PairsAddUp` | package/foxhole-openwrt-client/htdocs/luci-static/resources/foxhole/charts.js:322-328 | rates held for their times add up to the counter increments, and their times to the covered time |
| `Traffic.CarriedBelowPeak` | package/foxhole-openwrt-client/htdocs/luci-static/resources/foxhole/charts.js:326-333 | no total exceeds the peak rate held for the covered time |
| `Traffic.TotalTelescopes` | package/foxhole-openwrt-client/htdocs/luci-static/resources/foxhole/charts.js:304-338 | without reset, reboot or device change the total is the last counter minus the first and the elapsed time is the length of the run |
| `Traffic.TotalSplits` | package/foxhole-openwrt-client/htdocs/luci-static/resources/foxhole/charts.js:313-338 | totals of two stretches that share their boundary sample add up |
| `Timeline.CollectGaps` | package/foxhole-openwrt-client/htdocs/luci-static/resources/foxhole/charts.js:128-133 | the gaps are, in order, the distances of exactly the items before the recent part that time moved on to without an interruption |
| `Timeline.CoarseGapIsTheMedian` | package/foxhole-openwrt-client/htdocs/luci-static/resources/foxhole/charts.js:134-136 | the allowance is 1.75 times a gap that is the lower median of all gaps (half are not above it, more than half not below), at least six minutes; 525 seconds with fewer than two gaps |
| `Timeline.OneAllowance` | package/foxhole-openwrt-client/htdocs/luci-static/resources/foxhole/charts.js:134-136 | there is one such allowance |
| `Timeline.AllowanceIgnoresOrder` | package/foxhole-openwrt-client/htdocs/luci-static/resources/foxhole/charts.js:134-136 | the order of the gaps does not matter |
| `Timeline.SegmentSeries` | package/foxhole-openwrt-client/htdocs/luci-static/resources/foxhole/charts.js:125-148 | numbers rise by one exactly at a missing item and between known neighbours that are interrupted, out of order or further apart than the allowance: that of the median before the last 15 minutes, 20 seconds in them |
| `Timeline.SegmentsInNumbers` | package/foxhole-openwrt-client/htdocs/luci-static/resources/foxhole/charts.js:125-148 | the same of the specified numbers |
| `Timeline.SameSegmentIffGapless` | package/foxhole-openwrt-client/htdocs/luci-static/resources/foxhole/charts.js:138-147 | two known samples share a number exactly if every sample between them is known and every link between them is allowed |
| `Timeline.SegmentsAreSegmented` | package/foxhole-openwrt-client/htdocs/luci-static/resources/foxhole/charts.js:138-147 | numbers never fall, a missing value opens a new one, and inside a number time increases |
| `Timeline.RegularSeriesIsOneSegment` | package/foxhole-openwrt-client/htdocs/luci-static/resources/foxhole/charts.js:126-147 | an evenly sampled old series is one segment however sparse it is |
| `Timeline.Flush` | package/foxhole-openwrt-client/htdocs/luci-static/resources/foxhole/charts.js:156-167 | a flushed group contributes the first of its lowest and the first of its highest values, in order of time, and nothing else |
| `Timeline.DecimateSeries` | package/foxhole-openwrt-client/htdocs/luci-static/resources/foxhole/charts.js:150-188 | of a series too long for the plot exactly the first lowest and first highest item of each maximal group of one segment and pixel column are kept, and each missing item right behind a known one; so every known sample is bracketed inside its own segment and column, and on sorted data at most 2(buckets + segments - 1) known points are left |
| `Timeline.BucketIsColumn` | package/foxhole-openwrt-client/htdocs/luci-static/resources/foxhole/charts.js:177-178 | a bucket is the column k with k width <= (time - start) buckets < (k + 1) width; what lies outside the plot belongs to the first or last |
| `Timeline.ChosenInGroup` | package/foxhole-openwrt-client/htdocs/luci-static/resources/foxhole/charts.js:156-185 | in a maximal group the items kept are the first lowest and the first highest |
| `Timeline.GroupsArePaid` | package/foxhole-openwrt-client/htdocs/luci-static/resources/foxhole/charts.js:168-185 | on sorted data the number of groups is paid for by segments and bucket steps |
| `Timeline.ExtremaSurvive` | package/foxhole-openwrt-client/htdocs/luci-static/resources/foxhole/charts.js:150-188 | a minimum and a maximum of every segment survive the thinning |
| `Timeline.DrawSeries` | package/foxhole-openwrt-client/htdocs/luci-static/resources/foxhole/charts.js:505-512 | the draw loop lifts the pen exactly at a missing item and at a new segment |
| `Timeline.StrokesAreDrawn` | package/foxhole-openwrt-client/htdocs/luci-static/resources/foxhole/charts.js:505-512 | one stroke for each known visible item, in order: a line from its visible neighbour exactly if that is known and reaches it in the full series without a gap above the allowance |
| `Timeline.DrawnIffGapless` | package/foxhole-openwrt-client/htdocs/luci-static/resources/foxhole/charts.js:500-513 | a line joins two neighbouring visible points exactly if the full series has no gap between them; no other line is drawn |
| `Timeline.Polyline` | package/foxhole-openwrt-client/htdocs/luci-static/resources/foxhole/charts.js:500-513 | split, thin and draw in one, in the numbers of the clock: which items are visible, and which strokes are drawn |
| `Render.SeriesFromFields` | package/foxhole-openwrt-client/htdocs/luci-static/resources/foxhole/charts.js:455-465 | time, break and value of each item of a traffic series, from the fields of the samples |
| `Render.DrawnTrafficIsCounted` | package/foxhole-openwrt-client/htdocs/luci-static/resources/foxhole/charts.js:455-465 | a drawn traffic line runs only over pairs whose traffic is counted: both counters, moving time, no reset, no reboot, one device |
| `DraftSaver.Saving.BeginSettingsDraft` | package/foxhole-openwrt-client/htdocs/luci-static/resources/foxhole/app.js:1486-1492 | keeps the invariant; the new draft is the loaded state, belongs to a session that no edit counted so far has, and requests in flight go on |
| `DraftSaver.Saving.QueueDraftSave` | package/foxhole-openwrt-client/htdocs/luci-static/resources/foxhole/app.js:1558-1563 | keeps the invariant; the edit of an open draft is counted under a new name, is in the draft, and a saver is at work, one started now with the whole draft if there was none |
| `DraftSaver.Saving.FinishModal` | package/foxhole-openwrt-client/htdocs/luci-static/resources/foxhole/app.js:389-403 | keeps the invariant; no draft is left, every saver at work belongs to an ended session, and exactly the unsaved edits that were not in flight are discarded |
| `DraftSaver.Saving.LocalLock` | package/foxhole-openwrt-client/htdocs/luci-static/resources/foxhole/app.js:1898-1913 | keeps the invariant; neither draft nor state is left, what is in flight stays in flight, and exactly the other unsaved edits are discarded |
| `DraftSaver.Saving.OnReply` | package/foxhole-openwrt-client/htdocs/luci-static/resources/foxhole/app.js:1513-1555 | keeps the invariant; an accepted write of the open session leaves the draft with the new revision and its edits, what was sent is saved, and edits left go out at once with the whole draft under that revision; only the saver of the open session touches the draft |
| `DraftSaver.ReplyIsHandled` | package/foxhole-openwrt-client/htdocs/luci-static/resources/foxhole/app.js:1513-1555 | what every reply to every saver does to draft, revision, saved mark and savers: confirmed, read again, given up, or left to a new saver |
| `DraftSaver.StepKeeps` | package/foxhole-openwrt-client/htdocs/luci-static/resources/foxhole/app.js:1486-1563 | each event keeps: one saver holds the flag, unsaved edits keep it held, the draft holds all unsaved edits, the books of edits balance, budgets hold |
| `DraftSaver.OneRequestAtATime` | package/foxhole-openwrt-client/htdocs/luci-static/resources/foxhole/app.js:1502-1563 | in every interleaving at most one settings request is in flight, and unsaved edits always have a saver |
| `DraftSaver.EveryEditHasOneFate` | package/foxhole-openwrt-client/htdocs/luci-static/resources/foxhole/app.js:389-403 | in every interleaving every edit ever counted, of any session, is in exactly one place: open draft, in flight, accepted write, rolled back, discarded with its session |
| `DraftSaver.NothingIsLeftWaiting` | package/foxhole-openwrt-client/htdocs/luci-static/resources/foxhole/app.js:1552-1555 | once no saver is at work every edit ever counted was written, rolled back or discarded |
| `DraftSaver.FatesAreFinal` | package/foxhole-openwrt-client/htdocs/luci-static/resources/foxhole/app.js:1513-1551 | written, rolled back and discarded are final |
| `DraftSaver.LostIff` | package/foxhole-openwrt-client/htdocs/luci-static/resources/foxhole/app.js:1513-1551 | over every run exactly these edits are lost: those above the version under way when the session ends, and those inside a request that fails after its session has ended |
| `DraftSaver.ClosingLosesAnEdit` | package/foxhole-openwrt-client/htdocs/luci-static/resources/foxhole/app.js:389-403 | closing while a request is under way loses a later edit: a concrete run |
| `DraftSaver.RunsStayInBudget` | package/foxhole-openwrt-client/htdocs/luci-static/resources/foxhole/app.js:1508-1556 | one saver run makes at most two settings requests for each accepted one, and two more |
| `DraftSaver.StaleSaverIsHarmless` | package/foxhole-openwrt-client/htdocs/luci-static/resources/foxhole/app.js:1522-1544 | a saver of another session changes neither the draft nor what counts as saved |
| `DraftSaver.SavedMovesOnlyByReply` | package/foxhole-openwrt-client/htdocs/luci-static/resources/foxhole/app.js:1522-1547 | the saved mark moves only by an accepted write of the current session to the version it carried, or by a rollback |
| `DraftSaver.SessionsNeverReturn` | package/foxhole-openwrt-client/htdocs/luci-static/resources/foxhole/app.js:1486-1492 | a session number never comes back |
| `DraftSaver.ConflictRetryOverwrites` | package/foxhole-openwrt-client/htdocs/luci-static/resources/foxhole/app.js:1533-1539 | after a conflict and the reload a second request is sent exactly if the session is open and edits are unsaved, and it sends the whole draft again under the new revision: it overwrites, it does not merge |
| `UpdatePanel.Panel.ApplyPlan` | package/foxhole-openwrt-client/htdocs/luci-static/resources/foxhole/update-panel.js:151-155 | keeps the invariant; submits only the plan in hand, neither pending nor in doubt, and never an id submitted before |
| `UpdatePanel.Panel.Act` | package/foxhole-openwrt-client/htdocs/luci-static/resources/foxhole/update-panel.js:122-131 | keeps the invariant; submits nothing, changes no doubt, and sends a request only with a status, not pending, and in doubt only settings |
| `UpdatePanel.Panel.OnReply` | package/foxhole-openwrt-client/htdocs/luci-static/resources/foxhole/update-panel.js:99-150 | keeps the invariant for a reply in any order that does not clear the doubt about a submitted plan; says what each reply does; outdated replies change neither status, plan nor doubt, none submits anything, and where doubt ends no submitted plan is left in hand |
| `UpdatePanel.ReplyIsAnswered` | package/foxhole-openwrt-client/htdocs/luci-static/resources/foxhole/update-panel.js:99-150 | what every reply does in any state and order: status and job reads, settings, plan, check and apply, accepted or not, heeded or not |
| `UpdatePanel.Panel.ClosePanel` | package/foxhole-openwrt-client/htdocs/luci-static/resources/foxhole/update-panel.js:97 | keeps the invariant; afterwards no request under way is fresh, there is no plan, nothing is pending, and the doubt is as before |
| `UpdatePanel.Panel.Reopen` | package/foxhole-openwrt-client/htdocs/luci-static/resources/foxhole/update-panel.js:99-102 | keeps the invariant; of all requests under way only the new status read is fresh |
| `UpdatePanel.StepKeeps` | package/foxhole-openwrt-client/htdocs/luci-static/resources/foxhole/update-panel.js:91-161 | each event, replies in any order, keeps that a submitted plan in hand means doubt or a pending submission |
| `UpdatePanel.AppliedAtMostOnce` | package/foxhole-openwrt-client/htdocs/luci-static/resources/foxhole/update-panel.js:122-155 | over every run, replies in any order, in which no heeded job read clears the doubt about a submitted plan: no plan id is submitted twice, and a submitted plan in hand means pending or uncertain |
| `UpdatePanel.ClearedIff` | package/foxhole-openwrt-client/htdocs/luci-static/resources/foxhole/update-panel.js:99-112 | exactly a fresh, accepted job read leaves a doubtful submitted plan in hand without the doubt |
| `UpdatePanel.SecondSubmissionIff` | package/foxhole-openwrt-client/htdocs/luci-static/resources/foxhole/update-panel.js:122-155 | apply submits an id twice exactly if a submitted plan is in hand, nothing is pending, there is no doubt and the status allows it |
| `UpdatePanel.InOrderAppliedAtMostOnce` | package/foxhole-openwrt-client/htdocs/luci-static/resources/foxhole/update-panel.js:91-161 | with replies in the order of the requests no such job read ever comes, so no plan is applied twice |
| `UpdatePanel.DoubtClearsByReading` | package/foxhole-openwrt-client/htdocs/luci-static/resources/foxhole/update-panel.js:99-112 | in any state and order doubt ends only by a fresh status read without a job, which drops the plan, or by a fresh accepted job read |
| `UpdatePanel.StaleRepliesAreIgnored` | package/foxhole-openwrt-client/htdocs/luci-static/resources/foxhole/update-panel.js:97-103 | replies of an older sequence or scope never change the status, the plan or the doubt, in any order |
| `UpdatePanel.OutOfOrderAppliesTwice` | package/foxhole-openwrt-client/htdocs/luci-static/resources/foxhole/update-panel.js:99-112 | without in-order replies the same plan can be applied twice: a concrete run |
| `BackupPanel.Panel.Restore` | package/foxhole-openwrt-client/htdocs/luci-static/resources/foxhole/backup-panel.js:156-160 | keeps the invariant; a restore starts only unlocked and without doubt, and then none is unresolved and nobody else holds the lock |
| `BackupPanel.Panel.OnFile` | package/foxhole-openwrt-client/htdocs/luci-static/resources/foxhole/backup-panel.js:160-162 | keeps the invariant; the file goes to validation exactly if it is valid and the panel is the same, and then no restore is unresolved; otherwise the lock is released |
| `BackupPanel.Panel.OnReply` | package/foxhole-openwrt-client/htdocs/luci-static/resources/foxhole/backup-panel.js:156-207 | keeps the invariant for a reply in any order that is not outdated while a restore is unresolved; says what each reply does; a restore is sent only while none is unresolved, and doubt ends only by an answer about that very job |
| `BackupPanel.ReplyIsAnswered` | package/foxhole-openwrt-client/htdocs/luci-static/resources/foxhole/backup-panel.js:156-207 | what every reply does in any state and order: validation, restore, status read, and who goes on after it with or without the lock |
| `BackupPanel.Panel.ClosePanel` | package/foxhole-openwrt-client/htdocs/luci-static/resources/foxhole/backup-panel.js:84-85 | keeps the invariant; afterwards no reply under way is heeded, and the doubt is as before |
| `BackupPanel.DoubtEndsByAnswer` | package/foxhole-openwrt-client/htdocs/luci-static/resources/foxhole/backup-panel.js:167-200 | doubt ends only on COMMITTED or CANCELLED for that same job id, or on IDLE, told to the current panel; closing never ends it |
| `BackupPanel.TrackIsLostIffOutdated` | package/foxhole-openwrt-client/htdocs/luci-static/resources/foxhole/backup-panel.js:188-207 | at a step with an unresolved restore, exactly the replies to status reads sent under another doubt make the panel lose track |
| `BackupPanel.StepKeeps` | package/foxhole-openwrt-client/htdocs/luci-static/resources/foxhole/backup-panel.js:156-207 | each event, replies in any order, keeps one holder of the lock and the link between doubt and unresolved restore, unless an outdated reply comes while one is unresolved |
| `BackupPanel.OneRestoreAtATime` | package/foxhole-openwrt-client/htdocs/luci-static/resources/foxhole/backup-panel.js:156-207 | over every run, replies in any order, without an outdated reply while a restore is unresolved: no restore is sent while an earlier one is unresolved, and its id stays the doubt |
| `BackupPanel.TrackIsLostIffDeceived` | package/foxhole-openwrt-client/htdocs/luci-static/resources/foxhole/backup-panel.js:188-207 | in such a run the panel loses track of an unresolved restore at exactly those replies |
| `BackupPanel.CalmRestores` | package/foxhole-openwrt-client/htdocs/luci-static/resources/foxhole/backup-panel.js:156-207 | so it is in runs with replies in order in which no status read overlaps a restore before it is sent |
| `BackupPanel.OverlappingReadLosesTrack` | package/foxhole-openwrt-client/htdocs/luci-static/resources/foxhole/backup-panel.js:188-205 | with in-order replies and one operation at a time a status read of the timer that overlaps a restore can still let a second one be sent: a concrete run |
| `Bridge.Table.SettleRequest` | package/foxhole-openwrt-client/htdocs/luci-static/resources/foxhole/bridge.js:17-24 | keeps the invariant; a pending request settles now, for the first and only time, with its timer cleared; for any other id nothing changes |
| `Bridge.Table.SendRequest` | package/foxhole-openwrt-client/htdocs/luci-static/resources/foxhole/bridge.js:34-52 | keeps the invariant; the id was never issued before, and the request is pending with an armed timer |
| `Bridge.Table.OnMessage` | package/foxhole-openwrt-client/htdocs/luci-static/resources/foxhole/bridge.js:26-32 | keeps the invariant; settles exactly if genuine, in a frame and pending, and changes nothing otherwise |
| `Bridge.Table.OnTimeout` | package/foxhole-openwrt-client/htdocs/luci-static/resources/foxhole/bridge.js:47-51 | keeps the invariant; an armed timer belongs to a pending request, which is rejected and, if direct, aborted |
| `Bridge.Table.OnFetch` | package/foxhole-openwrt-client/htdocs/luci-static/resources/foxhole/bridge.js:60-70 | keeps the invariant; a direct reply settles exactly if its request is pending, and the failure of an aborted fetch changes nothing |
| `Bridge.Table.CancelPending` | package/foxhole-openwrt-client/htdocs/luci-static/resources/foxhole/bridge.js:79-84 | keeps the invariant; every pending request is rejected as locked exactly once, in any order, direct ones are aborted, and none is left |
| `Bridge.NextKeeps` | package/foxhole-openwrt-client/htdocs/luci-static/resources/foxhole/bridge.js:17-84 | each event keeps: issued ids are pending with a timer or settled once, never both |
| `Bridge.SettlesExactlyOnce` | package/foxhole-openwrt-client/htdocs/luci-static/resources/foxhole/bridge.js:17-84 | at every point of every run each request is pending with an armed timer or settled exactly once |
| `Bridge.LateAndForeignAreIgnored` | package/foxhole-openwrt-client/htdocs/luci-static/resources/foxhole/bridge.js:17-32 | late replies, foreign messages and stale timers change nothing |
| `Bridge.SettledForGood` | package/foxhole-openwrt-client/htdocs/luci-static/resources/foxhole/bridge.js:17-24 | outcomes are never revised |
| `Bridge.NothingSurvivesCancel` | package/foxhole-openwrt-client/htdocs/luci-static/resources/foxhole/bridge.js:79-84 | after `cancelPending` no earlier request is pending, then or ever |
| `SecurityEvidence.ReadExceptions` | tools/check-hysteria-security.py:79-113 | two exceptions are accepted exactly if ecosystem, coordinate, expiry, identity and affected paths hold, the coordinates differ and the advisories are the reviewed two |
| `SecurityEvidence.AffectedPaths` | tools/check-hysteria-security.py:100-107 | the affected paths of an advisory for one module |
| `SecurityEvidence.MatchResponse` | tools/check-hysteria-security.py:164-179 | a response is accepted exactly if each finding is canonically the advisory of its coordinate and no finding repeats |
| `SecurityEvidence.MatchFindings` | tools/check-hysteria-security.py:161-183 | the scan is accepted exactly if coordinates differ, all responses match and the closing comparisons hold |
| `SecurityEvidence.CheckTarget` | tools/check-hysteria-security.py:211-243 | a package graph is accepted exactly if names are unique, no forbidden package is selected, imports stay inside, sources match and tracked modules have their listed version |
| `SecurityEvidence.ReadVersions` | tools/check-hysteria-security.py:224-241 | the version table of the loop, and the two ways in which the loop fails |
| `SecurityEvidence.CheckEvidence` | tools/check-hysteria-security.py:72-247 | the whole decision equals the declarative predicate; the report counts findings and duplicates |
| `SecurityEvidence.EvidenceInWords` | tools/check-hysteria-security.py:72-247 | acceptance in the words of the documents: two unexpired exceptions with exactly the affected packages, the one reviewed alias or none, a scan of the right age, every finding where it belongs, and complete package graphs for both architectures |
| `SecurityEvidence.ForbiddenIsUnreachable` | tools/check-hysteria-security.py:211-229 | no chain of imports of any length from any selected package, `main` included, leaves the selection or meets a forbidden package |
| `SecurityEvidence.ForbiddenIsAffected` | tools/check-hysteria-security.py:100-110 | what is forbidden is exactly what the two advisories name for their modules |
| `SecurityEvidence.FindingsAreTheReviewed` | tools/check-hysteria-security.py:161-183 | accepted findings are duplicate-free and equal to the reviewed advisories plus the admitted duplicate |
| `SecurityEvidence.ReportedAtItsCoordinate` | tools/check-hysteria-security.py:173-179 | each reviewed advisory is reported at its own coordinate and at no other |
| `SecurityEvidence.RawComparisonSuffices` | tools/check-hysteria-security.py:180-183 | of the three closing comparisons the one on raw ids implies the other two |
| `SecurityEvidence.AliasesAreTheDuplicate` | tools/check-hysteria-security.py:114-137 | the alias table is empty or holds the one reviewed duplicate |
| `SecurityEvidence.AcceptedEvidence` | tools/check-hysteria-security.py:72-247 | acceptance of the whole evidence in terms of the advisories and the scan alone |
| `Elf.ElfClosure` | tools/check-transaction-inputs.py:76-114 | for every byte string and both architectures: accepted exactly if the declarative reading exists and the production markers hold; the result is the two library names; every read is inside the image |
| `Elf.ReadsInNumbers` | tools/check-transaction-inputs.py:76-109 | an image is read in a certain way exactly if it is laid out so at the offsets and with the type and tag numbers of the System V gABI |
| `Elf.HeadersRoundTrip` | tools/check-transaction-inputs.py:77-85 | an image into which a writer of ELF and program headers put its fields is read as exactly these fields, and is framed exactly for a known type, the right machine and segments inside the file |
| `Elf.EntriesRoundTrip` | tools/check-transaction-inputs.py:93 | the dynamic entries that a writer put into the table are those read out of it |
| `Elf.ProductionMarkers` | tools/check-transaction-inputs.py:110-113 | a normal artifact contains both applet names and none of the seven names of test builds |
| `Elf.ReadHeaders` | tools/check-transaction-inputs.py:77-85 | identification, header table and segments inside the file, exactly |
| `Elf.FindSegments` | tools/check-transaction-inputs.py:86-93 | one interpreter with the exact text and one bounded dynamic table, exactly |
| `Elf.FindTable` | tools/check-transaction-inputs.py:94-101 | one string table address, one size in range, two needed entries and one covering segment, exactly |
| `Elf.ReadName` | tools/check-transaction-inputs.py:104-108 | a dependency name is read exactly if it starts inside the table, is ended by a zero byte, is not empty and is ASCII |
| `Elf.ReadLibraries` | tools/check-transaction-inputs.py:103-109 | the two names are accepted exactly if they are libgcc and musl, in either order |
| `Elf.TableLiesInTheSegment` | tools/check-transaction-inputs.py:99-101 | the string table lies in the file-backed bytes of its segment, so the closing length check is implied |
| `Elf.OneReading` | tools/check-transaction-inputs.py:86-101 | an image can be read in one way only |
| `Elf.NamesAreInTheFile` | tools/check-transaction-inputs.py:99-109 | both names stand zero-terminated in the file-backed bytes of one loadable segment |
| `IndexedAuth.ScanIndexes` | tools/indexed-auth.py:106-137 | indexes are accepted exactly if each is sound, files differ and no trust key crosses roles; the tables are those of the list |
| `IndexedAuth.AddTrust` | tools/indexed-auth.py:132-136 | the inner loop refuses exactly a key that already has another role |
| `IndexedAuth.ScanTrustKeys` | tools/indexed-auth.py:143-154 | trust keys are accepted exactly if records are sound and listed, files and digests differ, and the canonical digest belongs to keys of FoxHole indexes |
| `IndexedAuth.RecordsAreTheTable` | tools/indexed-auth.py:157-158 | the table by file has as many entries as packages exactly if their files differ |
| `IndexedAuth.ScanBindings` | tools/indexed-auth.py:160-170 | bindings are accepted exactly if each names a package with its identity and an index of the owner's role, and no file repeats |
| `IndexedAuth.Schema` | tools/indexed-auth.py:91-179 | the whole schema equals the declarative predicate; the result is the set of trust keys |
| `IndexedAuth.AdmittedInNumbers` | tools/indexed-auth.py:91-179 | acceptance in the words of the document, with all limits as numbers |
| `IndexedAuth.TotalsAreSums` | tools/indexed-auth.py:175-178 | the byte totals are sums over the records, however they are added up |
| `AssetNames.NamesInCharacters` | tools/indexed-auth.py:19-22 | file names, package names, versions and digests by their characters and lengths |
| `IndexedAuth.ManifestIsPartitioned` | tools/indexed-auth.py:138-174 | packages, indexes and keys are pairwise disjoint and together exactly the manifest, whose size is the sum of theirs |
| `IndexedAuth.BindingsAreABijection` | tools/indexed-auth.py:157-172 | bindings and packages are in bijection by file |
| `IndexedAuth.CompletenessIsImplied` | tools/indexed-auth.py:171-172 | the closing completeness check follows from the counts |
| `IndexedAuth.OwnedExactlyInFoxhole` | tools/indexed-auth.py:163-169 | a package lies in a FoxHole index exactly if its name is owned |
| `IndexedAuth.CanonicalKey` | tools/indexed-auth.py:132-152 | the canonical digest belongs exactly to keys of FoxHole indexes, only to the canonical file, and no upstream index trusts it |
| `IndexedAuth.OwnedNeedsCanonicalKey` | tools/indexed-auth.py:129-174 | an owned package brings the canonical key with its canonical digest into the manifest |
| `HttpsPolicy.HttpsUrl` | native/ram-recovery-fetch/https-policy.h:16-44 | the pointer loops accept a byte string exactly if it is in the grammar: https, host of letters, digits, dots and hyphens, optional port 1 to 65535 in at most five digits, a slash, printable bytes, no harmful escape, at most 8192 bytes |
| `HttpsPolicy.CleanBytes` | native/ram-recovery-fetch/https-policy.h:22-32 | the byte loop accepts exactly printable bytes other than backslash and hash without an escape of a control byte, DEL or backslash |
| `HttpsPolicy.Authority` | native/ram-recovery-fetch/https-policy.h:36-43 | the authority loop accepts exactly a host with an optional port |
| `HttpsPolicy.AccumulatorBound` | native/ram-recovery-fetch/https-policy.h:40 | the port accumulator never exceeds 99999 |
| `HttpsPolicy.OneParse` | native/ram-recovery-fetch/https-policy.h:16-44 | the parts of an accepted URL are unique |
| `HttpsPolicy.AcceptsRendered` | native/ram-recovery-fetch/https-policy.h:16-44 | every URL put together from well-formed parts is accepted |
| `HttpsPolicy.GrammarInCharacters` | native/ram-recovery-fetch/https-policy.h:16-44 | the grammar in characters |
| `HttpsPolicy.EscapesInCharacters` | native/ram-recovery-fetch/https-policy.h:26-31 | the escapes refused are %00 to %1F, %7F and %5C, with letters of either case |
| `HttpsPolicy.PortInDecimal` | native/ram-recovery-fetch/https-policy.h:40-43 | written in decimal, exactly the numbers from 1 to 65535 are ports |
| `HttpsPolicy.RecoveryArguments` | native/ram-recovery-fetch/https-policy.h:46-53 | the arguments are accepted exactly as a URL alone or with the certificate option and an absolute printable file |
| `HttpsPolicy.ArgumentsInCharacters` | native/ram-recovery-fetch/https-policy.h:46-53 | the arguments in characters |
| `Fetch.ReadOptions` | native/ram-recovery-fetch/uclient-fetch.c:718-939 | past the gate the options contain at most the certificate file, and one URL, which is in the grammar |
| `Fetch.Client.constructor` | native/ram-recovery-fetch/uclient-fetch.c:938-974 | for settings that passed the gate the run starts with its invariant: one URL in the grammar, no redirects |
| `Fetch.Client.HeaderDone` | native/ram-recovery-fetch/uclient-fetch.c:183-304 | keeps the invariant; an answer 200 or 204 that is neither refused nor followed opens the output and the run goes on, or ends with 3 if the file cannot be opened; a followed redirect requests one new URL of the policy, within ten; 416 ends with status 0, everything else with 8; nothing is written |
| `Fetch.AnswerIsRead` | native/ram-recovery-fetch/uclient-fetch.c:183-304 | the same of every answer in a run |
| `Fetch.ResumedAnswers` | native/ram-recovery-fetch/uclient-fetch.c:240-295 | the answers of a resumed download: 204 starts it over, 206 with a usable range goes on |
| `Fetch.Client.WriteBlock` | native/ram-recovery-fetch/uclient-fetch.c:324-337 | the partial-write loop writes the prefix that the write calls allow, over every schedule that makes progress, and the whole block if no call fails |
| `Fetch.WritesAddUp` | native/ram-recovery-fetch/uclient-fetch.c:324-337 | the calls made are those up to the one that completes the block or fails, and the bytes written are the sum of what they took |
| `Fetch.Client.ReadData` | native/ram-recovery-fetch/uclient-fetch.c:306-339 | keeps the invariant; with an open output all blocks are read and written, or those before the block whose write fails and what its calls took; otherwise nothing changes |
| `Fetch.Client.EndOfData` | native/ram-recovery-fetch/uclient-fetch.c:492-513 | keeps the invariant; ends the run, with status 0 exactly if the data is complete |
| `Fetch.StepKeeps` | native/ram-recovery-fetch/uclient-fetch.c:183-568 | each callback keeps the run invariant and only extends what was requested, received and written |
| `Fetch.EveryRunIsSafe` | native/ram-recovery-fetch/uclient-fetch.c:183-568 | in every run past the gate each requested URL is in the grammar, at most ten redirects are followed, and the bytes written are a prefix of the bytes read, equal unless a write failed |
| `Fetch.CounterIsNeverReset` | native/ram-recovery-fetch/uclient-fetch.c:217-233 | the redirect counter is never reset within a run |
| `Fetch.ZeroMeansComplete` | native/ram-recovery-fetch/uclient-fetch.c:196-304 | a step ends the run with status 0 exactly at a complete end of data or at status 416 in an answer neither refused nor followed, and then everything read is written |
| `Fetch.ZeroExactlyIf` | native/ram-recovery-fetch/uclient-fetch.c:183-568 | over every run past the gate: it has ended with status 0 exactly if such an event came while it was going on |
| `Fetch.BodyIsWritten` | native/ram-recovery-fetch/uclient-fetch.c:183-513 | over every run with an answer 200 or 204 whose file opens, deliveries without a failing write and a complete end: status 0, and the concatenation of all block data is written |
| `Fetch.EmptySuccess` | native/ram-recovery-fetch/uclient-fetch.c:248-252 | a first answer of 416 ends with exit status 0 and nothing written |
| `Ustar.Write` | tools/build-bundle-transport.py:65-71 | the writer appends header, body and padding per member, two zero blocks and record padding |
| `Ustar.LengthIsClosed` | tools/build-bundle-transport.py:56 | for every list of members the closed formula is the length the writer produces |
| `Ustar.HeaderRoundTrip` | tools/build-bundle-transport.py:67-69 | name and size are read back from a header whose checksum and octal fields are checked |
| `Ustar.ChecksumIsByteSum` | tools/build-bundle-transport.py:67-71 | the checksum field is, in octal, the sum of all bytes of the block with eight spaces in that field |
| `Ustar.HeaderLayout` | tools/build-bundle-transport.py:67-70 | every other field of a header, by offset: name, mode 0644, zero owner, group and time, size in octal, type, magic and version |
| `Ustar.RoundTrip` | tools/build-bundle-transport.py:65-71 | an independent reader gives back every member, name and bytes, in order |
| `BundleTransport.ReadEntries` | tools/build-bundle-transport.py:38-47 | the manifest is accepted exactly if lines parse, names are free and differ without regard to case, files are guarded and digests match |
| `BundleTransport.LineIsWritten` | tools/build-bundle-transport.py:15 | a line is a digest, two spaces and a name |
| `BundleTransport.DependencyIsNamed` | tools/build-bundle-transport.py:14 | a dependency is named after a digest |
| `BundleTransport.Partition` | tools/build-bundle-transport.py:53 | every entry is archived or direct, never both |
| `BundleTransport.SortedTotal` | tools/build-bundle-transport.py:56-66 | the formula in manifest order is the length in archive order |
| `BundleTransport.SortedIsInOrder` | tools/build-bundle-transport.py:66 | members are archived in order of their names |
| `BundleTransport.PrecedesIsLexicographic` | tools/build-bundle-transport.py:66 | the first difference decides, and a prefix comes first |
| `BundleTransport.LengthCheckHolds` | tools/build-bundle-transport.py:56-73 | the length measured after writing is always the computed one, so that check never refuses |
| `BundleTransport.CopyDirect` | tools/build-bundle-transport.py:79-81 | exactly the entries that are not archived are copied, unchanged |
| `BundleTransport.WriteManifest` | tools/build-bundle-transport.py:82-83 | the outer digests: all inner ones and two new names |
| `BundleTransport.Build` | tools/build-bundle-transport.py:31-86 | the build succeeds exactly under the stated limits and places files and digests as specified |
| `BundleTransport.AdmittedInNumbers` | tools/build-bundle-transport.py:31-63 | admission in the words of the manifest, with all limits as numbers |
| `BundleTransport.EveryFileIsKept` | tools/build-bundle-transport.py:53-81 | every source file is copied unchanged or read back unchanged from the archive, exactly one of the two |
| `BundleTransport.OuterManifest` | tools/build-bundle-transport.py:82-84 | the outer manifest keeps every inner digest, adds exactly two names and is right about every file written |
| `BundleTransport.AssetCount` | tools/build-bundle-transport.py:59-60 | the files written number the unarchived entries plus three |
| `BundleTransport.FewerThan200` | tools/build-bundle-transport.py:59-60 | an admitted bundle yields fewer than 200 files |
| `ProgressMeter.FloorOfSum` | native/ram-recovery-fetch/progress.c:146-163 | rounding the parts down never makes them exceed the rounded total |
| `ProgressMeter.ScaledFits` | native/ram-recovery-fetch/progress.c:119-164 | after clamping and scaling, on both kinds of processor, a known total still covers its parts and is below 2^53 or 2^54 |
| `ProgressMeter.PercentIsBounded` | native/ram-recovery-fetch/progress.c:170-172 | the percentage is at most 100 and its product fits 63 bits, for all inputs |
| `ProgressMeter.FinishedIsHundredIff` | native/ram-recovery-fetch/progress.c:119-172 | a finished transfer shows 100 exactly if the low ends of offset and rest do not carry into a unit; with offset zero, the only one of the fetcher, always |
| `ProgressMeter.FinishedMayShow99` | native/ram-recovery-fetch/progress.c:146-172 | with an offset of one byte a finished transfer shows 99: concrete sizes |
| `ProgressMeter.BarProductIsSafeIff` | native/ram-recovery-fetch/progress.c:174-178 | the star product fits 63 bits for all sizes exactly if the bar is at most 1024 (512 on 32-bit processors) |
| `ProgressMeter.Reduce` | native/ram-recovery-fetch/progress.c:186-189 | the unit loop shows the sum in the first unit with at most five digits |
| `ProgressMeter.UnitIsNamed` | native/ram-recovery-fetch/progress.c:131-191 | the unit index never passes 5, inside the nine letters |
| `ProgressMeter.EstimateIsNonnegative` | native/ram-recovery-fetch/progress.c:214-222 | the remaining time before narrowing is never negative |
| `ProgressMeter.NarrowingIsExactIff` | native/ram-recovery-fetch/progress.c:222-224 | the shown time is the capped estimate exactly if the estimate fits 32 bits or its low 32 bits still reach the cap |
| `ProgressMeter.RunIsPaid` | native/ram-recovery-fetch/progress.c:193-205 | stalls are cut out: over every growing run at most four seconds up to the last change are paid for by each unit received |
| `ProgressMeter.RemainingIsPaid` | native/ram-recovery-fetch/progress.c:205-222 | a remaining time is shown only with at most four seconds for each unit received and four more |
| `ProgressMeter.ShownTimeIsRight` | native/ram-recovery-fetch/progress.c:205-227 | up to a scaled rest of 2^29 no estimate of any run leaves 32 bits, and the capped estimate is shown |
| `ProgressMeter.EstimateMayWrap` | native/ram-recovery-fetch/progress.c:205-227 | one unit above, the shown time can be zero while 50 days remain: a concrete run |
| `ProgressMeter.EstimateProductIsSafeIff` | native/ram-recovery-fetch/progress.c:222 | the product fits 63 bits for all elapsed times exactly up to a scaled total of 2^32 + 2 |
| `ProgressMeter.DrawBar` | native/ram-recovery-fetch/progress.c:170-184 | percentage and stars are shares of the scaled sizes, and the stars fit the bar |
| `ProgressMeter.ScaleInNumbers` | native/ram-recovery-fetch/progress.c:119-164 | what is counted, in which unit, from which size on |
| `ProgressMeter.Progress.Update` | native/ram-recovery-fetch/progress.c:103-229 | when a call is skipped, and otherwise percentage, stars, amount, unit, record and time, all in numbers, for every call whose products stay inside 63 bits |
| `ProgressMeter.RunKeepsOrder` | native/ram-recovery-fetch/progress.c:86-205 | over every run with a steady clock start, last change and last update stay in order |
| `ProgressMeter.ClocksNeverWrap` | native/ram-recovery-fetch/progress.c:193-209 | then no subtraction wraps, and a stall is shown exactly if the size stood still for five seconds |
| `ProgressMeter.StallIsCutOut` | native/ram-recovery-fetch/progress.c:193-205 | when a stalled transfer moves again the clock resumes where it stood at the last change |

## Left out

- Pages, canvas, popovers, translation, focus and modal layout: user interface without provable content.
- `snapshot`, `formatBytes`, axis and label formatting, and floating-point rounding: samples arrive as read, values are reals.
- `historyRevision` is kept as what it is, a length with two stamps; that equal fingerprints mean equal histories is not claimed.
- The in-place reuse of the sample array by `insertSample`: the store is a sequence that the class reassigns, so aliasing of the old array is not captured.
- The status of the draft notice, toasts and stored language in the saver; other requests that also apply a state are the `Sync` and `Unlock` events.
- The reading of state in the `catch` of `operation` after a revision conflict: the model releases the lock before that read, which only adds runs.
- `EnginePanel` and the log and pairing panels: no uncertain outcome is tracked there.
- `UpdatePanel.StaleRepliesAreIgnored`: does not include the job, which the source assigns before its freshness test.
- That the pending flag of the update panel is always cleared: an `open` during an action leaves it set until the panel is closed.
- `summary` and the poll timer of the update panel: the timer is an `Open` event at any time; the fields inside a plan or job that have no influence on the protocol are one flag, `sound`.
- The capability request of the backup panel: its outcome is the `Support` event at any time.
- Hashing, signatures, JSON, TAR and gzip libraries, file metadata and subprocesses: digests are opaque values or a function parameter, parsed documents are typed records.
- `SecurityEvidence.CheckTarget`: takes the producer, digest and build-scope checks of a target as one given flag.
- `SecurityEvidence.CheckEvidence`: takes the digest, producer, build-scope and request-receipt checks as given flags, and advisory documents as a table of those whose digest matched.
- `IndexedAuth.ScanIndexes`: takes the URL rules of an index (`urlsplit`, `upstream_url`) as one given flag.
- `IndexedAuth.Schema`: takes those and the signature model of the document as given flags.
- `ChartsModel.IncrementalEqualsOneShot`: after a change of the history the equation is `HistoryChangeEqualsOneShot` for that rebuild; a log that mixes both by time is not claimed to stay equivalent, because the source lets a later list entry replace a newer one of the same bucket.
- A document of another shape than the records (a text where a list is expected) is refused by the source before anything modelled here.
- `Elf.ElfClosure`: follows the source in reading dynamic entries past a DT_NULL entry, where the System V gABI ends the table.
- `tarfile` is not part of this model: the header follows the ustar interchange format, with zero device fields.
- The text of the outer manifest, the JSON descriptor and files that change during the build: the descriptor is a byte string, the sources do not change.
- `uclient`, TLS, `uloop` and the kernel: they choose the events; a followed redirect connects to the accepted location.
- Options of the fetcher that the argument gate never lets through (resume, spider, proxy, post): their branches in the callbacks are modelled, their parsing is one flag.
- `ProgressMeter.Progress.Update`: says nothing of a call that forms a product beyond 63 bits, which is undefined in C; a content length of 2^63 or more, negative as an offset, is not modelled.
- The ucode services, the RAM switch and the transaction engines of updates and backups.
- Constant whitelists, shape-only validators and the packaging and release scripts: they would add only easy members.
