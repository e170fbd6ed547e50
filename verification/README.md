# A verified model of adBlock's bookkeeping

The program is a filtering proxy and DNS resolver. Around the network code and the filter
engine it keeps a number of structures that have to agree with something simpler: a window
of statistics with the raw event log, a cached engine with a freshly compiled one, a file
with the list in memory, a page with the page that came in. This project models those
structures in Dafny and proves that they agree, over every run and every input, or proves
exactly when they do.

Code that works by changing things in place is modelled by classes and loops; each class
method is proved equal to one step of a small state machine (`…Spec` modules), and the
results about whole runs are lemmas about that machine. Pure code is modelled by functions.

| file | models |
|---|---|
| `History.dfy`, `HistoryLimits.dfy` | the sliding-window statistics, and exactly when they stop agreeing with the log |
| `EngineCache.dfy`, `CacheWriters.dfy`, `EngineCore.dfy` | the canonical rule set, the compiled-engine cache and its key, the concurrent save protocol, and the engine rebuilt over it |
| `Procedural.dfy` | the procedural-rule evaluator that runs in the page |
| `Reconcile.dfy` | the stored form of a filter list and the start-up reconciliation of copies |
| `RotatingLog.dfy`, `SeqResume.dfy` | the rotating log, paging by cursor, and record numbers across restarts |
| `Persist.dfy`, `Rewrites.dfy` | line files of entries, and the DNS rewrites kept in one |
| `DnsCache.dfy` | the DNS answer cache |
| `Upstream.dfy` | latency smoothing, weights, server order and the attempt loop |
| `Page.dfy` | splicing into a page and scanning it for classes and ids |
| `ErrorLog.dfy` | the error ring and its file |
| `Text.dfy`, `Ordering.dfy`, `Options.dfy` | trimming, lines, searching; sorting; optional values |

## What does not hold

Some properties one would expect, or that a comment in the source claims, are false. The
code is modelled as it is; each has a counterexample and the exact condition.

- Statistics: a snapshot can index outside its series, panic, and leave the lock poisoned.
  It does so exactly if some kept event lies ahead of the snapshot or is expired behind one
  that is not (`SnapshotPanicsIff`), which takes clock readings that are not in the order
  in which the lock is taken (`StepBackBeforeSnapshotPanics`, `HiddenBucketPanics`). The
  program reads the clock before it takes the lock, so two threads at a bucket boundary
  are enough. Under the same circumstances a cell can be short (`StepBackSplitsACell`),
  exactly if another bucket's event was recorded between two of its own
  (`CellsRightIff`, `SnapshotCellsIff`). Lengthening the retention cannot bring evicted
  events back (`GrowingWindowLosesEvents`; exactly when: `SnapshotExactIff`).
- Engine cache: writers leave the prior cache or a whole new one, whatever the order and
  the failures of their steps, exactly if no two of them have the same key
  (`AlwaysWholeIff`); two of one key share a temporary name, and one can publish what the
  other has just truncated (`SharedKeyPublishesEmptyFile`). What is promised then rests on
  the library rejecting damaged copies (`EngineIsAlwaysRight`). The key is a 64-bit hash, so
  the cached engine is right exactly if keys differ or the rules compile alike
  (`BuildExactIff`).
- Procedural evaluator: the comment that a pass cannot wake itself in a loop is false when
  one element is hit by two different style rules, or is both hidden and stripped of its
  style attribute (`EveryPassEdits`); otherwise it is true (`ComesToRestIff`). The comment
  that a rule is applied again after the page undoes it is true of every action but style
  rules (`RedoneIff`).
- Stored lists: an enabled list whose text begins with the mark of a disabled list comes
  back disabled (`MarkedTextComesBackDisabled`; exactly when: `StoredRoundTripIff`).
- Record numbers: a restart can give out a number again whose old detail is still on disk,
  and a lookup then returns it. A restart is safe exactly if no detail on disk has a number
  above the newest ones of the three logs (`RestartSafeIff`). That can fail because the
  request log is not drained (`UndrainedRestartReuses`), because its writes fail
  (`FailedWritesReuse`), or because two threads draw numbers in one order and queue their
  lines in the other (`CrosswiseIssueReuses`); with none of the three it holds
  (`DrainingRequestsSuffices`).
- Upstream latency: a load that straddles a reset brings the old value back
  (`ResetCanBeUndone`); a reset is final exactly if what the threads under way are about to
  store is in range (`ResetIsFinalIff`).
- Error log: a lost append is missing after a restart (`LostAppend`), until 300 further
  pushes are written or the file is rewritten, unless the events that stand in for it are
  equal to it (`LostWriteHealsIff`).

## Model

| member | source | states |
|---|---|---|
| `HistorySpec.KeptIsLogSuffix` | src/stats/history.rs:117-192 | in every run of record, snapshot, retention change and reset, with any clock, the events accounted for are the newest part of the raw log |
| `HistorySpec.SteadyClockNeverPanics` | src/stats/history.rs:117-178 | with clock readings that never step back, in the order in which the lock is taken, no run indexes out of range, and the log is in bucket order |
| `HistoryLimits.SnapshotExactIff` | src/stats/history.rs:146-192 | with such readings and retention changed at will, a snapshot shows exactly the log's events inside the window if and only if none of them was outside the window of an earlier record or snapshot |
| `HistoryLimits.LostIsOutlived` | src/stats/history.rs:181-192 | the events evicted in a run are those that a later record or snapshot found outside the window of its moment |
| `HistorySpec.LostStaysExpired` | src/stats/history.rs:181-192 | while the window never grows, every evicted event stays outside it |
| `HistorySpec.SnapshotRefinesLog` | src/stats/history.rs:117-192 | steady clock and a window that never grows: every snapshot is the log filtered to the window |
| `HistorySpec.SnapshotRecount` | src/stats/history.rs:158-178 | the cell k buckets back is the log's count for that bucket and metric, and the total is the sum of those counts |
| `HistorySpec.CellsSumToTotal` | src/stats/history.rs:158-178 | conservation: the per-bucket counts of a metric add up to its total |
| `HistorySpec.DropExpiredCut` | src/stats/history.rs:181-192 | lazy eviction removes only expired events from the old end and stops at the first that is not |
| `HistorySpec.DropExpiredIsRecent` | src/stats/history.rs:181-192 | in bucket order, eviction from the old end keeps exactly the events in the window |
| `HistorySpec.LastRunIsTally` | src/stats/history.rs:117-139 | in bucket order the newest-bucket check never splits a bucket, so a cell is its bucket's full count |
| `HistoryLimits.SnapshotPanicsIff` | src/stats/history.rs:158-178 | whatever the recorded times, a snapshot panics exactly if a kept event is ahead of it, or is expired with one before it that is not |
| `HistoryLimits.GrowingWindowLosesEvents` | src/stats/history.rs:146-148 | a run in which lengthening the retention leaves a snapshot short of the log |
| `HistoryLimits.StepBackBeforeSnapshotPanics` | src/stats/history.rs:154-178 | a run in which a clock that stepped back makes a snapshot panic |
| `HistoryLimits.HiddenBucketPanics` | src/stats/history.rs:113-139 | a run in which nothing lies ahead of the snapshot and it panics on an expired bucket hidden behind another |
| `HistoryLimits.StepBackSplitsACell` | src/stats/history.rs:117-139 | a run in which a clock that stepped back before a record leaves a cell short of the log's count |
| `HistoryLimits.CellsRightIff` | src/stats/history.rs:117-139 | for every sequence of events, a bucket's cells are its full counts if and only if no other bucket's event lies between two of its own |
| `HistoryLimits.SnapshotCellsIff` | src/stats/history.rs:158-178 | the same for all cells of a snapshot, in any run |
| `History.CountsAreTallies` | src/stats/history.rs:117-139 | incrementally kept counts equal a recount of the events |
| `History.TableOfIsTable` | src/stats/history.rs:117-139 | incrementally kept domain tables equal a recount, entry by entry, with no zero entries |
| `History.Subtract` | src/stats/history.rs:194-203 | entry by entry, the difference, and entries that reach zero are gone |
| `History.SubtractRun` | src/stats/history.rs:194-203 | taking the oldest bucket's table out of the window's leaves the table of the rest, so the subtraction never saturates |
| `History.SubtractCounts` | src/stats/history.rs:181-192 | taking the oldest bucket's counts out leaves the counts of the rest, so no total goes below zero |
| `History.BuildSeries` | src/stats/history.rs:158-178 | the series exists exactly if every bucket is inside the window, and then each cell is its last bucket's count |
| `History.Top` | src/stats/history.rs:205-210 | the listed rows are the highest of the table, by count and then name, and at most 25 |
| `History.TopUnique` | src/stats/history.rs:205-210 | such a list is determined by the table, whatever order a hash map iterates in |
| `History.History.RecordAt` | src/stats/history.rs:117-139 | buckets, totals and both tables together step as the abstract machine does; totals and tables stay the sums over the kept buckets |
| `History.History.Rotate` | src/stats/history.rs:181-192 | the eviction loop drops exactly the expired events and keeps totals and tables the sums over the rest |
| `History.History.Reset` | src/stats/history.rs:141-144 | everything is forgotten, the retention stays |
| `History.History.SetRetentionHours` | src/stats/history.rs:146-148 | the window changes and nothing is evicted yet |
| `History.History.SnapshotAt` | src/stats/history.rs:158-178 | the snapshot shows totals, series and top lists of the kept events, or panics exactly when the abstract machine does |
| `EngineBuild.OrderIsCanonical` | src/adblock/mod.rs:731-738 | stores with the same enabled names and texts, in any order, give the same rule sequence |
| `EngineBuild.StoreOrderDoesNotShow` | src/adblock/mod.rs:731-738 | the order in which the store lists its files has no effect on rules or key |
| `EngineBuild.RulesetShowsEdits` | src/adblock/mod.rs:740-753 | the sequence the key is computed from determines the enabled names and texts, so every edit changes it |
| `EngineBuild.KeyOfFile` | src/adblock/mod.rs:786-790 | eight bytes hold a key exactly if they are its little-endian bytes |
| `EngineBuild.LoadSaved` | src/adblock/mod.rs:786-801 | loading a saved file gives the compiled engine under its own key and nothing under any other |
| `EngineBuild.BuildExactIff` | src/adblock/mod.rs:757-784 | over a cache saved for other lists, the build equals a fresh compile if and only if the keys differ or both compile alike |
| `EngineBuild.SavedIsHonest` | src/adblock/mod.rs:757-801 | with no collision, no saved file misleads a start |
| `EngineBuild.BuildOverAnyFile` | src/adblock/mod.rs:757-801 | over a file that is absent, short, under another key, unreadable, or saved for lists that do not collide, the engine is the fresh compile with resources, and it is to be saved exactly if the file was of no use |
| `EngineBuild.HarmlessIsHonest` | src/adblock/mod.rs:786-801 | loading any such file gives nothing or the engine compiled from the present lists |
| `EngineBuild.SecondStartIsCached` | src/adblock/mod.rs:757-801 | after a save, a start with the same lists in any order compiles nothing and has the same engine |
| `CacheWriters.CacheIsPriorOrWhole` | src/adblock/mod.rs:813-844 | writers with different keys, any interleaving, failures and a crash at any step: the cache file is what it was or one writer's whole image |
| `CacheWriters.CacheIsPriorOrCopy` | src/adblock/mod.rs:813-844 | with any keys: what it was, or a copy of a writer's image with bytes missing or zero |
| `CacheWriters.RunInv` | src/adblock/mod.rs:807-844 | the invariant of the protocol over every run: names, files, owners and writers under way match |
| `CacheWriters.AlwaysWholeIff` | src/adblock/mod.rs:807-844 | every run that spawns these writers, with any interleaving and failures, leaves the prior cache or a whole image if and only if no two of them have the same key |
| `CacheWriters.SharedKeyPublishesEmptyFile` | src/adblock/mod.rs:827-832 | wherever a key is repeated among the writers, a run that publishes an empty file |
| `EngineCoreSpec.EngineIsAlwaysRight` | src/adblock/mod.rs:68-85 | over any run of starts, list changes, writer steps, failures and crashes, from a cache file that is absent, short, foreign, unreadable or saved without collision, the engine in use is compiled from the present lists, if no two writers of one key overlap or damaged copies are rejected |
| `EngineCoreSpec.CacheHonest` | src/adblock/mod.rs:786-844 | at every point of such a run the cache file cannot make a start load an engine for other rules |
| `EngineCore.EngineCore.Rebuild` | src/adblock/mod.rs:70-78 | one build step of the system machine: the engine is built over the cache file as it is now and a writer is spawned if it had to be compiled |
| `EngineCore.EngineCore.Mutate` | src/adblock/mod.rs:80-85 | a change of the lists followed by that step, so the object stays a run of the machine, and its engine is the one compiled from its lists under the conditions of the run theorem |
| `EngineCore.EngineCore.WriterStep` | src/adblock/mod.rs:807-844 | a background writer's step changes the directory and nothing else, and is one step of the machine |
| `EngineCore.EngineCore.InUseIsRight` | src/adblock/mod.rs:70-85 | after any sequence of these calls, under the conditions of the run theorem, the engine in use is the one compiled from the present lists |
| `EngineCore.CacheDir.SaveCachedEngine` | src/adblock/mod.rs:813-844 | one undisturbed save, whose writes and rename may fail, either publishes the whole image or leaves the cache as it was, and leaves no temporary name either way |
| `ProceduralPasses.ComesToRestIff` | src/adblock/procedural_runtime.js:206-255 | every set of filters, however its selectors choose out of the given hits, makes a bounded number of edits over all passes if and only if no styleable element is hit by two different style rules or both hidden and stripped of its style |
| `ProceduralPasses.EveryPassEdits` | src/adblock/procedural_runtime.js:244-266 | with two such rules on one element every pass edits the page, for ever |
| `ProceduralSpec.BoundedIffCompatible` | src/adblock/procedural_runtime.js:213-255 | the same for free sequences of hits |
| `ProceduralSpec.EditsBounded` | src/adblock/procedural_runtime.js:213-255 | with such rules any run makes at most as many edits as the page's measure at its start |
| `ProceduralSpec.ActMeasure` | src/adblock/procedural_runtime.js:213-240 | every edit of one action lowers the element's measure, and no action raises it |
| `ProceduralSpec.RoundsEdit` | src/adblock/procedural_runtime.js:213-255 | two actions that undo each other edit at least once in every round, for ever |
| `ProceduralSpec.ActMeets` | src/adblock/procedural_runtime.js:206-240 | acting brings the action's visible effect about, and acting again edits nothing |
| `ProceduralSpec.RedoneIff` | src/adblock/procedural_runtime.js:206-240 | after the page has undone an action's visible effect, the next pass does it again if and only if the action is not a style rule |
| `ProceduralSpec.StrippedStyleStaysOff` | src/adblock/procedural_runtime.js:224-232 | a style rule is not applied again when the page strips the style it appended |
| `Procedural.Evaluator.ActAll` | src/adblock/procedural_runtime.js:249-253 | one filter's loop performs its actions in order and counts their edits |
| `Procedural.Evaluator.Run` | src/adblock/procedural_runtime.js:244-255 | a pass clears the timer and performs the hits of all filters in order |
| `Procedural.Evaluator.Settle` | src/adblock/procedural_runtime.js:244-266 | with compatible rules the passes that wake each other come to an end, and the page and the number of edits are those of that many passes, within the measure |
| `ListText.StoredRoundTripIff` | src/adblock/curation.rs:234-264 | a stored list reads back with its source, switch and text if and only if its source is one line and, when enabled, its text does not begin with the disabled mark |
| `ListText.MarkedTextComesBackDisabled` | src/adblock/curation.rs:234-264 | an enabled list whose text begins with the mark reads back disabled and without it |
| `ListText.EntryRoundTrip` | src/adblock/curation.rs:252-275 | the entry read back has the stored source, switch and text |
| `Reconcile.ReconcileStored` | src/adblock/curation.rs:192-232 | from distinct stored ids: one list per name, each that of the name's survivor; the removed ids are exactly those of the other copies and the old custom file; custom rules are collected in order |
| `Reconcile.ReconcileItems` | src/adblock/curation.rs:192-232 | the loop: the copy under the name's own id survives, otherwise the first seen |
| `Reconcile.SurvivorUnique` | src/adblock/curation.rs:210-226 | one name has one survivor |
| `Reconcile.Partition` | src/adblock/curation.rs:192-232 | a stored id is kept exactly if a list entry stands for it or it is the custom list's |
| `Reconcile.CanonicalIsOrderFree` | src/adblock/curation.rs:210-226 | a list stored under its name's own id comes out the same in whatever order the files are read |
| `Reconcile.NothingMoreToRemove` | src/adblock/curation.rs:192-232 | once the removed files are gone, reconciling the rest in any order removes nothing |
| `RotatingLogSpec.RetainedIsSuffix` | src/stats/logs.rs:146-173 | through rotations, reopenings and failed file operations, the old and the current file together are a gapless suffix of the lines written |
| `RotatingLogAge.DroppedOrRetained` | src/stats/logs.rs:146-173 | conservation, in every run: each line that reached the disk was dropped by a rotation or is still there, in order |
| `RotatingLogAge.RecentLinesStay` | src/stats/logs.rs:44-69 | with successful writes in time order, over restarts and changes of the rotation period: a dropped line is at least the shortest period older than the newest, the current file spans less than the longest, and the old file lies before it |
| `RotatingLogSpec.RunProgress` | src/stats/logs.rs:146-173 | as a run goes on, lines only join at the new end and only leave at the old end |
| `RotatingLogSpec.PagingOverARun` | src/stats/logs.rs:92-118 | over any run, with pages asked for at any points of it and the last number seen as cursor: the lines come back newest first, each once and without a gap, paging stops, and by then every line that was there at the first page and is still retained has been returned |
| `RotatingLogSpec.PagingReturnsAllRetained` | src/stats/logs.rs:92-118 | the same for any views of one sequence of lines |
| `RotatingLogSpec.WalkFrom` | src/web/logs.rs:29-36 | from any cursor the walk that stops at a short page reads a gapless stretch and stops after no more pages than lines |
| `RotatingLogSpec.BackDescends` | src/stats/logs.rs:92-118 | the reading order has strictly falling numbers, so no line comes twice |
| `RotatingLogSpec.BackMembers` | src/stats/logs.rs:92-118 | and it holds exactly the numbered lines of its stretch |
| `RotatingLog.RotatingLog.WriteLine` | src/stats/logs.rs:146-173 | rotation, opening and appending, each of which may fail, step as the abstract log does |
| `RotatingLog.RotatingLog.Page` | src/stats/logs.rs:92-118 | a page is the first `limit` numbered lines below the cursor over both files, newest first |
| `RotatingLog.RotatingLog.Find` | src/stats/logs.rs:122-131 | the newest matching line of both files |
| `SeqOrder.NumbersNeverRepeat` | src/stats/mod.rs:192-232 | with numbers issued one at a time, and the request and query logs written and drained before each restart, the numbers given out rise strictly across any number of restarts and rotations, although details are written in drop order and may be lost |
| `SeqOrder.ResumeIsExact` | src/stats/mod.rs:213-225 | in such a state the newest lines on disk give back the counter exactly |
| `SeqOrder.ResumesAboveAllIff` | src/stats/mod.rs:207-225 | with numbers issued one at a time, writes failing anywhere and queues undrained, the restarted counter is above every number on disk if and only if no detail on disk is above the newest numbers of the logs |
| `SeqOrder.NextIsOnNoLog` | src/stats/mod.rs:385-450 | with numbers issued one at a time and such restarts, the next number is on no log, neither on disk nor queued |
| `SeqResumeSpec.LookupFindsOwnDetail` | src/stats/mod.rs:482-499 | threads interleaving freely, writes failing anywhere and queues undrained: if no restart finds a detail above the newest numbers, a lookup returns what that very request captured |
| `SeqResumeSpec.RestartSafeIff` | src/stats/mod.rs:207-225 | after such a run, no continuation of a restart leads a lookup to another request's detail if and only if no detail on disk is above the newest numbers of the logs |
| `SeqOrder.DrainingRequestsSuffices` | src/stats/mod.rs:207-225 | numbers issued one at a time and the request log written and drained before each restart suffice for lookups, whatever happens to the other logs |
| `SeqReuse.UndrainedRestartReuses` | src/stats/mod.rs:213-225 | a run, one at a time and without failures, whose undrained restart leads a lookup astray |
| `SeqReuse.FailedWritesReuse` | src/stats/logs.rs:157-170 | a run, one at a time and drained, where failed request writes do |
| `SeqReuse.CrosswiseIssueReuses` | src/stats/mod.rs:428-445 | a run, drained and without failures, where drawing and queueing in different orders does |
| `SeqResume.SharedState.WithDataDir` | src/stats/mod.rs:192-232 | a restart reopens the three logs and resumes above their newest numbers |
| `SeqResume.SharedState.Begin` | src/stats/mod.rs:415-450 | two steps of the machine: draw the next number, then queue the request's line under it |
| `SeqResume.SharedState.RecordDns` | src/stats/mod.rs:385-398 | two steps: draw the next number, then queue the query's line under it |
| `SeqResume.SharedState.Attach` | src/stats/mod.rs:609-617 | a capture is kept on the open exchange of that number and nowhere else |
| `SeqResume.SharedState.Drop` | src/stats/mod.rs:641-650 | dropping the exchange queues its captures under its own number |
| `PersistText.FileRoundTrip` | src/dns/persist.rs:52-64 | a file written with a comment header reads back as exactly the entries written |
| `PersistText.HeaderVanishes` | src/dns/persist.rs:112-118 | header lines leave no entries |
| `RewriteText.V4RoundTrip` | src/dns/rewrites.rs:21-51 | an address prints and parses back |
| `RewriteText.NormalizeMeets` | src/dns/rewrites.rs:192-208 | what normalisation accepts is a host pattern with at most one leading wildcard |
| `RewriteText.NormalizeFixed` | src/dns/rewrites.rs:192-208 | and such a pattern is left as it is |
| `RewriteText.AnswerRoundTrip` | src/dns/rewrites.rs:21-51 | parsing an answer undoes printing it |
| `RewriteText.LineRoundTrip` | src/dns/rewrites.rs:62-80 | parsing a line undoes formatting, for every normalised record, parked or not |
| `RewriteStoreSpec.ReloadIsServed` | src/dns/rewrites.rs:110-172 | after any run of edits with write failures anywhere, a reload gives exactly the served list, for any header of comments |
| `RewriteStoreSpec.OwnFileReloads` | src/dns/rewrites.rs:11-13 | the header the program writes is one, so its own file reloads as served |
| `RewriteStoreSpec.RunInv` | src/dns/rewrites.rs:110-172 | in every reachable store all records are valid and different, and no CNAME stands beside another answer of its pattern |
| `RewriteStoreSpec.NoTies` | src/dns/rewrites.rs:181-190 | two patterns that match one domain and rank equal are the same pattern |
| `RewriteStoreSpec.BestIsBest` | src/dns/rewrites.rs:91-104 | the pattern that answers is that of an enabled matching record, and no such record ranks higher |
| `RewriteStoreSpec.MostSpecificAnswers` | src/dns/rewrites.rs:91-104 | every other matching enabled pattern ranks strictly lower |
| `RewriteStoreSpec.MatchingIsOrderFree` | src/dns/rewrites.rs:91-104 | the answers do not depend on the order of the list |
| `RewriteStoreSpec.OneCnameOrAddresses` | src/dns/rewrites.rs:91-145 | in every reachable store a domain is answered by one CNAME, by distinct addresses, or not at all |
| `RewriteStore.RewriteStore.Mutate` | src/dns/persist.rs:41-50 | memory changes only after a successful write |
| `RewriteStore.RewriteStore.Add` | src/dns/rewrites.rs:110-145 | an accepted edit is reported exactly if the record is then in the store; invalid and self-pointing ones are refused |
| `RewriteStore.RewriteStore.Remove` | src/dns/rewrites.rs:147-156 | reports whether there was such a record, and afterwards there is none |
| `RewriteStore.RewriteStore.SetEnabled` | src/dns/rewrites.rs:159-172 | reports whether there was such a record, and its flag is then the given one |
| `DnsCacheSpec.HitIsLatest` | src/dns/cache.rs:77-135 | in every run of put, get, resize and clear, a hit is the last accepted answer for its key, aged, and before its expiry |
| `DnsCacheSpec.EveryGetCounted` | src/dns/cache.rs:77-101 | hits and misses together count the gets |
| `DnsCacheSpec.HitTtls` | src/dns/cache.rs:66-135 | in every run with one clock reading per get and no put read later: a hit is the last accepted put for its key, each record with its TTL clamped by the bounds of that moment minus the whole seconds since, and at least 1 |
| `DnsCacheSpec.TtlExact` | src/dns/cache.rs:77-135 | for one entry: floor, saturation and 32-bit cut lose nothing, and a client's copy outlives the stored TTL by less than a second |
| `DnsCacheSpec.TtlExactIff` | src/dns/cache.rs:84-98 | with the second clock reading the code takes, the TTL is exact if and only if the age is still below it |
| `DnsCacheSpec.ClampMeets` | src/dns/cache.rs:110-122 | the clamp respects the set bounds and leaves TTLs within them alone |
| `DnsCacheSpec.ShortestAttained` | src/dns/cache.rs:110-126 | the expiry is taken from one of the records |
| `DnsCacheSpec.ShortestBounds` | src/dns/cache.rs:110-126 | and from none longer than any other |
| `DnsCacheSpec.RecentlyUsedStays` | src/dns/cache.rs:66-135 | once used, an entry survives gets and puts of fewer other keys than the capacity |
| `DnsCache.ClampSection` | src/dns/cache.rs:110-122 | the loop over a section clamps every record and carries the shortest TTL along |
| `DnsCache.DnsCache.Get` | src/dns/cache.rs:77-101 | the answer, the new recency order, the dropped expired entry and the counters |
| `DnsCache.DnsCache.Put` | src/dns/cache.rs:103-135 | what is stored, with which expiry, and what the capacity evicts |
| `DnsCache.DnsCache.SetConfig` | src/dns/cache.rs:66-75 | resizing keeps the most recently used entries and the counters |
| `DnsCache.DnsCache.Clear` | src/dns/cache.rs:137-143 | the entries go and their number is returned |
| `UpstreamSpec.SmoothStaysBetween` | src/dns/upstream.rs:218-228 | the smoothed latency stays between its inputs, so it neither overflows nor returns to the unset mark |
| `UpstreamSpec.SmoothApproaches` | src/dns/upstream.rs:218-228 | a sample moves the value towards it and never past it |
| `UpstreamSpec.SteadyConverges` | src/dns/upstream.rs:218-228 | from any past, a steady round-trip time settles the value within eight microseconds of it |
| `UpstreamSpec.RaceStaysWithin` | src/dns/upstream.rs:218-234 | under every interleaving of load and store pairs and resets it stays within the range of the samples |
| `UpstreamSpec.NeverBackToUnset` | src/dns/upstream.rs:218-228 | once set it is not unset without a reset |
| `UpstreamSpec.ResetCanBeUndone` | src/dns/upstream.rs:218-234 | a load that straddles a reset brings the old value back |
| `UpstreamSpec.ResetIsFinalIff` | src/dns/upstream.rs:218-234 | after a reset the value stays unset or within a range under all traffic of that range if and only if every thread under way is about to store a value of that range |
| `UpstreamSpec.WeightInRange` | src/dns/upstream.rs:236-241 | every weight lies in 1 to 10000 |
| `UpstreamSpec.WeightIsShare` | src/dns/upstream.rs:236-241 | a weight is ten thousand over the latency in milliseconds, rounded down, but at least 1 |
| `UpstreamSpec.WeightAntitone` | src/dns/upstream.rs:236-241 | a slower server never weighs more |
| `UpstreamSpec.PickWeighted` | src/dns/upstream.rs:753-766 | the loop returns the one server whose interval of cumulated weights holds the draw, and never falls through |
| `UpstreamSpec.ShareOfPicks` | src/dns/upstream.rs:753-766 | exactly `weights[i]` of all residues pick server i |
| `UpstreamSpec.FailoverIsRotation` | src/dns/upstream.rs:485-489 | failover order is the enabled servers rotated to start at the preferred one |
| `UpstreamSpec.LoadBalancedIsPermutation` | src/dns/upstream.rs:491-500 | load-balanced order is a permutation of the enabled servers, the pick first, the rest by rising latency |
| `UpstreamSpec.AttemptsAreCounted` | src/dns/upstream.rs:502-526 | one query is counted per attempt and one failure per failed attempt |
| `UpstreamSpec.AttemptsPerServer` | src/dns/upstream.rs:502-526 | what one resolution does to each server's record, and none twice |
| `UpstreamSpec.PermutationAsksEachOnce` | src/dns/upstream.rs:387-391 | each enabled server is asked at most once and a parked one never |
| `UpstreamSpec.FailsOnlyWhenAllFail` | src/dns/upstream.rs:502-526 | a resolution fails if and only if every enabled server fails |
| `Upstream.Resolver.ResolveSequential` | src/dns/upstream.rs:502-526 | the attempt loop: first answer in order, the records of all attempts, and the new preferred server |
| `Upstream.Resolver.Order` | src/dns/upstream.rs:451-500 | the order tried is a permutation of the enabled servers in both modes |
| `Upstream.Resolver.Resolve` | src/dns/upstream.rs:451-526 | the order asked is the mode's own, the records are those of the attempts in that order, the first answer is returned; fails exactly if no enabled server answers, and touches no parked one's record |
| `PageSplice.InjectIntoHtml` | src/adblock/rewrite.rs:70-115 | the result is the page with the script put in just past the first head tag (else in front) and the style before the first closing head, else closing body tag, after it (else there) |
| `PageSplice.SpliceRestores` | src/adblock/rewrite.rs:70-115 | taking the two insertions out gives back the page byte for byte |
| `PageSplice.PointsUnique` | src/adblock/rewrite.rs:70-125 | the two points are determined by the page |
| `PageSplice.FindIsFirst` | src/adblock/rewrite.rs:119-125 | the search returns the first match regardless of ASCII case, and none only if there is none |
| `PageScan.Scan` | src/adblock/rewrite.rs:127-158 | the scanning loop ends and gathers what all positions contribute; skipping past a hit loses nothing |
| `PageScan.HtmlClassesAndIds` | src/adblock/rewrite.rs:127-158 | the words returned are exactly those contributed by some position |
| `ErrorLogSpec.RingMirrorsFile` | src/stats/errors.rs:29-91 | with successful writes, in every run: the ring is the newest 300 events since the last clear, a reload gives back ring and line count, and the file stays within 600 lines unless it began longer |
| `ErrorLogSpec.LostWriteHealsIff` | src/stats/errors.rs:40-70 | after one lost write, a reload agrees with the ring if and only if 300 pushes have been written since, or the file was rewritten, or the events that stand in for the lost one are equal to it |
| `ErrorLogSpec.Heals` | src/stats/errors.rs:40-70 | whatever failed before, 300 written pushes make a reload agree with the ring |
| `ErrorLogSpec.LostAppend` | src/stats/errors.rs:40-70 | an event whose write failed is in the ring and not in the file |
| `ErrorLog.ErrorLog.Load` | src/stats/errors.rs:29-38 | the ring starts as the newest readable events of the file |
| `ErrorLog.ErrorLog.Push` | src/stats/errors.rs:40-70 | append, ring bound and compaction step as the abstract log does |
| `ErrorLog.ErrorLog.Clear` | src/stats/errors.rs:76-91 | ring and file are emptied and the number of events returned |

## Assumptions

- The filter library is a parameter. It is assumed that reading back a serialized engine
  gives the compiled engine without its resources (`RoundTrips`), that the image saved under
  a key depends on the key alone, and, per run, that no two different rule sets of that run
  have one key (`NoCollision`). Collision freedom over all rule sets is not assumed. What
  the cache file holds at the start of a run must be one of the cases of `Harmless`: an
  absent, short, foreign or unreadable file, or one saved without a collision; bytes that
  carry a build's key and that the library reads as some other engine are not excluded by
  the code.
- The inline-style operations of the browser are parameters with two laws: setting
  `display: none` makes it read back as none, and an empty style does not read as none.
- Time, random draws, upstream outcomes, selector results and the success of each file
  operation are arguments. Where the source reads the clock twice in one call the model
  takes two readings.
- A file operation outside the engine cache happens whole or not at all. In the engine cache
  a file grows by pieces; a crash keeps what was written so far.
- Strings are sequences of characters; trimming and lower-casing follow ASCII. The id of a
  list name (its lower-case form) is a parameter of the reconciliation.
- Counters are unbounded; only the 32-bit cut of a TTL and the 64-bit key are modelled as such.

## Left out

- Network code, TLS, DoH and DoT exchanges, the accept loops and the fetching of lists.
- The parallel upstream mode: its outcome is a race of network calls.
- The filter engine itself, request classification, and the building of the page runtimes.
- The selector steps of the procedural evaluator: selection is arbitrary in the model, and an exception inside a selector is not modelled.
- Body capture and decoding (src/proxy/capture.rs, src/stats/capture.rs, src/stats/decode.rs): a bounded buffer and case analysis around decompression libraries.
- The web dashboard, the live event stream, the rule tester and command parsing.
- Certificate store, listener lifecycle, settings overlays and exclusion lists.
- The error log without a file: a ring alone.
- The parsing of JSON log lines: a line has an optional number, an optional time and a text.
- The number of rules of a list entry: counted for display only.
- Name preservation on reload of a list: ids are lower-cased and `.txt` is stripped, so it does not hold.
- The engine without a cache directory: the object always has one; without it every build compiles, as `BuildOverAnyFile` says.
- Power loss: the crash of the save protocol is that of the process, so what was written stays written.
- Memory ordering: atomics are interleaved loads and stores.
