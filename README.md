# timelapsebot in Dafny

A model of the capture loop of `timelapsebot`, a Raspberry Pi program that
takes one still every tick and consolidates the stills, bucket by bucket,
into 5-minute, hourly and daily video clips.

The program keeps one record, `TimelapseState`. It holds:
- the label of the current 5-minute bucket (`headFromState`);
- the still counter;
- the pending lists of stills, 5-minute clips and hourly clips;
- the five directory names.

On each tick the loop floors the current time to a 5-minute label and compares it with the head. When the label differs, the loop hands the live stills directory off under a temporary name and runs the consolidation task:
- stage A encodes the stills into a 5-minute clip;
- stage B, on an hour boundary, merges the 5-minute clips into an hourly clip;
- stage C, on a day boundary, merges the hourly clips into a daily clip.

Every tick then takes exactly one still, and the head moves to the new label. At startup the record is rebuilt from what is on disk.

The model has five modules:

- `Clock` holds UTC timestamps and `timeToLast5Mins` (`Floor5`).
- `Layout` holds the text the program prints: `strconv.Itoa` and the Go layouts `2006-01-02_03-04.avi`, `2006-01-02_03.avi` and `2006-01-02.avi`.
- `Os` holds the operating system as the loop sees it, in the class `Host`:
  - `Host.dirs` is a map from directory path to its entries;
  - `Host.invoked` records every external program started, as its argument vector;
  - `Mkdir`, `Rename`, `RemoveAll` and `Remove` update the map;
  - `Run` and `Start` log a program, and `Run` writes the program's output file when it succeeds.
- `Timelapse` holds the record as the class `TimelapseState` (the `Fields` datatype is its value), each function of the program as a method, and one tick of `main` (`Tick`).
  - Every method is proved against three specification functions of the old state: the new disk (`…Disk`, `None` when the operation panics), the new record (`…Fields`) and the programs it starts (`…Log`).
  - What the loop promises is proved as lemmas about those functions.
- `Bot` holds `main`: restore the state, turn the LED off, then run the loop over a finite sequence of ticks, stopping at the first panic. The run-level properties are proved over the same folds.

External programs (`raspistill`, `gst-launch-1.0`, `avimerge`, `gpio`) are opaque. The caller supplies the exit status each one reports (`Exits`), and a program that succeeds leaves its output file in its directory. A Go `panic` becomes the outcome `Fail(panic)`. State changed before the panic stays changed: `takeStill` has already advanced its counter, and `stillsTo5min` has already appended its clip.

Consequences of the code as written that the proofs make explicit:

- The layout `03` is the 12-hour clock. The hours h and h + 12 of one day give the same hourly and 5-minute clip names (`Layout.HourClipNameSame`, `Layout.FiveMinClipNameSame`). Once a day has hourly clips for both 01:00 and 13:00, its pending hourly list names one file twice. The daily merge then panics while deleting its inputs (`Timelapse.MergeWithDuplicateFails`).
- `differentDay` compares only the day of the month and `differentHour` only the hour. A jump of exactly one month to the same day and hour counts as a 5-minute boundary only (`Timelapse.CrossedIgnoresMonth`).
- `stillsTo5min` appends its clip to the pending list before the encoder runs. A failed encode still leaves the clip listed (`Timelapse.TimelapseState.StillsTo5min`).
- Go's `os.Rename` refuses an existing target directory, even an empty one. A temp directory left behind, for instance by an encoder that failed after a handoff, makes every later handoff panic; startup does not remove it (`Timelapse.HandoffDiskSpec`, `Timelapse.PreparedDiskKeys`).
- `takeStill` never appends to `contentsStills`, and its counter advances even when the capture fails (`Timelapse.TimelapseState.TakeStill`).

Further points where the model follows the code as written:

- **Recovered head.** At startup the head is the floored modification time of the first entry of the live directory, in the order the directory listing returns, whose floored time is not Go's zero time (timelapsebot.go:160-163). That need not be the oldest still.
- **Hour format.** Hourly clip names print the hour through layout `03`, a 12-hour hour (timelapsebot.go:304).

## Model

| member | source | states |
|---|---|---|
| Clock.Equal | timelapsebot.go:368 | `Time.Equal` on two UTC times holds exactly when every field agrees |
| Clock.Floor5 | timelapsebot.go:98-108 | the label keeps date and hour, has minute a multiple of 5 with zero seconds and nanoseconds, and its minute is at most the input's and less than 5 below it |
| Clock.Floor5Unique | timelapsebot.go:98-108 | the label is the only bucket start whose five minutes hold the timestamp |
| Clock.Floor5Fixes | timelapsebot.go:98-108 | flooring fixes exactly the bucket labels, so it is idempotent |
| Clock.Floor5SameBucket | timelapsebot.go:98-108 | two times share a label iff they share date, hour and five-minute slot |
| Clock.Floor5ExampleOnBoundary | timelapsebot.go:99-103 | 10:00:00 is labelled 10:00 |
| Clock.Floor5ExampleJustBefore | timelapsebot.go:99-103 | 10:04:59 is labelled 10:00 |
| Clock.Floor5ExampleJustAfter | timelapsebot.go:99-103 | 10:05:01 is labelled 10:05 |
| Clock.Floor5NotAfter | timelapsebot.go:98-108 | a label never lies after the time it labels |
| Clock.Floor5Monotone | timelapsebot.go:98-108 | a later time never gets an earlier label |
| Layout.Itoa | timelapsebot.go:336 | `strconv.Itoa` of a counter is a non-empty digit string with no leading zero |
| Layout.ItoaRoundTrip | timelapsebot.go:336 | reading the digits back gives the counter |
| Layout.ItoaInjective | timelapsebot.go:336 | distinct counters give distinct still names |
| Layout.Hour12 | timelapsebot.go:236 | layout `03` prints an hour from 1 to 12 congruent to the hour modulo 12 |
| Layout.FiveMinClipNameFields | timelapsebot.go:236 | year, month, day, 12-hour hour and minute can be read back from fixed positions of a 5-minute clip name |
| Layout.FiveMinClipNameSame | timelapsebot.go:236 | two 5-minute clip names agree iff date, minute and hour modulo 12 agree |
| Layout.HourClipNameSame | timelapsebot.go:304 | two hourly clip names agree iff date and hour modulo 12 agree |
| Layout.DayClipNameSame | timelapsebot.go:316 | two daily clip names agree iff the dates agree |
| Layout.DatePartExample | timelapsebot.go:236 | the date part of 2024-01-01 is "2024-01-01" |
| Layout.FiveMinClipNameExample | timelapsebot.go:236 | the bucket 2024-01-01 10:00 is encoded into "2024-01-01_10-00.avi" |
| Layout.NamesHaveNoSlash | timelapsebot.go:236-238 | no generated clip or still name contains '/' |
| Os.SplitJoin | timelapsebot.go:238 | `dir + "/" + name` splits back into `dir` and `name` when the name has no '/' |
| Os.PutSpec | timelapsebot.go:262-267 | after a program writes a file, its directory holds the new entry plus every entry of another name, and no entry that was not there before |
| Os.PutUnique | timelapsebot.go:262-267 | in a directory whose names are unique, the written file is afterwards the only entry of its name, and the names stay unique |
| Os.WithoutSpec | timelapsebot.go:297 | after a delete, the directory holds exactly the entries of other names |
| Os.CreatedSpec | timelapsebot.go:262-267 | the written file exists iff its directory does; no file disappears and no other directory changes |
| Os.Removed | timelapsebot.go:297-299 | `os.Remove` succeeds exactly when the file exists, and keeps every directory |
| Os.RemovedSpec | timelapsebot.go:297-299 | after `os.Remove` the file is gone, every other file remains, and other directories are unchanged |
| Os.RemovedAllSucceeds | timelapsebot.go:296-300 | the delete loop succeeds iff every file exists and none is listed twice |
| Os.RemovedAllEffect | timelapsebot.go:296-300 | after the delete loop exactly the listed files are gone |
| Os.RemovedAllKeepsEmptyDir | timelapsebot.go:296-300 | the delete loop leaves an empty directory empty |
| Os.Renamed | timelapsebot.go:218 | renaming to a free name moves the directory's entries there, removes the old name and leaves every other directory alone |
| Os.Host.Mkdir | timelapsebot.go:223-226 | `os.Mkdir` fails iff the path exists, and otherwise adds it empty |
| Os.Host.Rename | timelapsebot.go:218-221 | `os.Rename` of a directory fails iff the source is missing or the target already exists, even as an empty directory |
| Os.Host.RemoveAll | timelapsebot.go:270-272 | `os.RemoveAll` drops the directory, missing or not |
| Os.Host.Remove | timelapsebot.go:297-299 | `os.Remove` succeeds iff the file exists, and then removes exactly it |
| Os.Host.Run | timelapsebot.go:262-267 | a program run to completion is logged, and succeeds iff it reports success and its output directory exists, writing the output |
| Os.Host.Start | timelapsebot.go:93 | a program started without waiting is logged and changes no file |
| Timelapse.DirNamesDistinct | timelapsebot.go:138-142 | the five directory constants are pairwise different |
| Timelapse.LedRoundTrip | timelapsebot.go:86-93 | the bit written for the LED reads back as the requested state, "0" meaning on |
| Timelapse.InputArgsSpec | timelapsebot.go:282-284 | the input arguments are "-i" then the file, for each file in order |
| Timelapse.MergeArgvRoundTrip | timelapsebot.go:277-284 | the `avimerge` command has 3 + 2n arguments, names the output third, and gives back its inputs in order |
| Timelapse.MergeVideosInternal | timelapsebot.go:275-301 | logs the merge command; the disk afterwards is the merge's; it panics with a merge failure iff the merger fails, and then deletes nothing; a delete that fails is the only other panic |
| Timelapse.FirstStillName | timelapsebot.go:336 | the first still after a handoff is "0.jpg" |
| Timelapse.PathsSplit | timelapsebot.go:304 | every clip and still path lies directly in the directory it was built from |
| Timelapse.PathsSpec | timelapsebot.go:176-178 | the listed paths are the directory joined with each entry's name, in listing order |
| Timelapse.ScanHeadFirst | timelapsebot.go:160-167 | the stills loop ends on Go's zero time iff every still's label is zero, and otherwise on the first non-zero label |
| Timelapse.RestoredHeadSpec | timelapsebot.go:155-195 | the restored head is a bucket label: the first still's label when there is one, the label of the startup time when there are none |
| Timelapse.WithDir | timelapsebot.go:124-132 | making sure a directory exists adds it to the directories |
| Timelapse.WithDirSpec | timelapsebot.go:124-132 | existing directories keep their files, and a missing one is added empty |
| Timelapse.MakeDirIfNotExists | timelapsebot.go:124-132 | the disk afterwards has the directory, and no program is started |
| Timelapse.Crossed | timelapsebot.go:366-368 | a day boundary implies an hour boundary, which implies a 5-minute boundary, and the latter holds iff the label differs from the head |
| Timelapse.CrossedIffOutsideBucket | timelapsebot.go:364-368 | with a label as head, a tick crosses iff its time lies outside the head's five minutes |
| Timelapse.CrossedIgnoresMonth | timelapsebot.go:366 | the same day and hour a month later crosses only a 5-minute boundary |
| Timelapse.HandoffDiskSpec | timelapsebot.go:218-227 | the handoff succeeds iff the live directory exists and no temp directory is left over; the temp then holds exactly the former live files, the live one is empty, and nothing else changes |
| Timelapse.MergeDiskSpec | timelapsebot.go:275-301 | a merge succeeds iff the merger succeeds, every input exists and none repeats; afterwards no input exists |
| Timelapse.MergeWithDuplicateFails | timelapsebot.go:296-300 | a merge whose input list repeats a file always panics |
| Timelapse.TickFieldsSpec | timelapsebot.go:364-396 | after a tick the head is the tick's label; the counter is 1 after a handoff and otherwise one more; nothing else changes without a boundary |
| Timelapse.TickPendingLists | timelapsebot.go:371-391 | each boundary kind appends or clears the 5-minute and hourly pending lists as stages A, B and C do |
| Timelapse.CaptureLogRuns | timelapsebot.go:326-353 | a capture starts `raspistill` once, and `gpio` twice on success or once on failure, when the LED is supported |
| Timelapse.PipelineLogRuns | timelapsebot.go:374-388 | the consolidation task starts the encoder once and the merger once per hour and per day boundary |
| Timelapse.TickLogRuns | timelapsebot.go:371-394 | a tick's programs are those of the task when it crosses, plus those of the capture |
| Timelapse.TickCapturesOnce | timelapsebot.go:394 | every tick starts `raspistill` exactly once, into the still number the counter held (0 after a handoff) |
| Timelapse.TickConsolidatesOnBoundary | timelapsebot.go:371-391 | the encoder runs iff the label differs from the head, and the merger once per hour and per day boundary |
| Timelapse.TickStageOrder | timelapsebot.go:374-388 | on a day boundary: encode, then the hourly merge with the new 5-minute clip last, then the daily merge with the new hourly clip last |
| Timelapse.TickKeepsPendingInDirs | timelapsebot.go:238-240 | a tick keeps every pending 5-minute clip in the 5-minute directory and every pending hourly clip in the hourly directory |
| Timelapse.StageAOutputExists | timelapsebot.go:375-381 | when stage A succeeds, its 5-minute clip exists on disk for stage B, whose last input it is |
| Timelapse.StageBOutputExists | timelapsebot.go:379-386 | when stage B succeeds, its hourly clip exists on disk for stage C, because B deletes only clips of the 5-minute directory |
| Timelapse.RestoredPendingInDirs | timelapsebot.go:170-189 | the pending lists `restoreState` reads name clips of the 5-minute and hourly directories, when no entry name holds '/' |
| Timelapse.FiveMinuteBoundaryScenario | timelapsebot.go:364-396 | head 10:00 and a tick at 10:05:02: only a 5-minute boundary; "2024-01-01_10-00.avi" joins the pending list; still 0 is taken; the head becomes 10:05 |
| Timelapse.MergeKeepsEmptyDir | timelapsebot.go:296-300 | a merge leaves an empty directory other than its output's empty |
| Timelapse.PipelineKeepsLiveEmpty | timelapsebot.go:374-388 | the consolidation task never writes into the live directory, and removes the temp directory |
| Timelapse.RollOverEmptiesLiveDir | timelapsebot.go:371-391 | after handoff and consolidation the live directory is empty and the temp directory is gone |
| Timelapse.TickLiveDir | timelapsebot.go:371-396 | after a crossing tick the live directory holds just "0.jpg"; otherwise the new still joins the stills already there |
| Timelapse.TickKeepsStillsConsistent | timelapsebot.go:326-336 | a tick keeps the live directory holding exactly the stills numbered below the counter |
| Timelapse.NextStillIsFresh | timelapsebot.go:326-336 | while the live directory is in step with the counter, the next still's name is not on disk, so the capture overwrites no still |
| Timelapse.TickKeepsLabels | timelapsebot.go:364-396 | a tick keeps the directories distinct and the head a bucket label |
| Timelapse.PreparedDisk | timelapsebot.go:145-148 | after startup the live, 5-minute, hourly and daily directories exist |
| Timelapse.PreparedDiskKeys | timelapsebot.go:143-148 | startup adds exactly those four directories and leaves the temp directory as it was |
| Timelapse.PreparedDiskEntries | timelapsebot.go:145-148 | startup keeps the files of existing directories, and the added ones are empty |
| Timelapse.RestoredFieldsSpec | timelapsebot.go:134-198 | the restored counter is the number of stills; each pending list names its directory's entries in order; the head is a label; the record is well formed |
| Timelapse.RestoredStillsConsistent | timelapsebot.go:154-167 | a start without stills has the counter in step with the live directory |
| Timelapse.PrepareDirs | timelapsebot.go:145-148 | the four `makeDirIfNotExists` calls produce the prepared disk and start no program |
| Timelapse.ReadStills | timelapsebot.go:160-167 | the stills loop yields the scanned head, the number of stills and their paths |
| Timelapse.ListPaths | timelapsebot.go:176-178 | the 5-minute and hourly loops yield the entries' paths in order |
| Timelapse.RestoreState | timelapsebot.go:134-198 | startup prepares the disk, starts no program, and returns a new record equal to the one restored from the prepared disk |
| Timelapse.TimelapseState.constructor | timelapsebot.go:14-39 | a record holding the given field values |
| Timelapse.TimelapseState.SetRaspberryPowerLed | timelapsebot.go:82-96 | starts `gpio` with bit "0" for on and "1" for off only when the LED is supported, and changes no file |
| Timelapse.TimelapseState.StillsTo5minBootstrap | timelapsebot.go:214-233 | the disk afterwards is the handoff's; on success the counter is 0 and the still list is empty, and no other field changes; a failed rename leaves the disk as it was, and a failed `os.Mkdir` leaves it renamed |
| Timelapse.TimelapseState.StillsTo5min | timelapsebot.go:235-273 | the clip is appended to the 5-minute list whatever the outcome; the encoder is logged; the disk afterwards is stage A's; when the encoder fails the disk is left as it was, so the handed-off stills stay in the temp directory |
| Timelapse.TimelapseState.FiveMinsToHour | timelapsebot.go:303-313 | merges the pending 5-minute clips into the hourly clip; on success the 5-minute list is empty and the hourly clip is last in the hourly list; when the merger fails no file is deleted |
| Timelapse.TimelapseState.HoursToDay | timelapsebot.go:315-324 | merges the pending hourly clips into the daily clip; on success the hourly list is empty; when the merger fails no file is deleted |
| Timelapse.TimelapseState.TakeStill | timelapsebot.go:326-353 | the counter advances by one and nothing else changes; the still gets the old counter's number; the LED goes off only on success; a failed capture leaves the disk as it was |
| Timelapse.TimelapseState.CaptureAndAdvance | timelapsebot.go:394-396 | `takeStill`, then the head moves to the new label only if the capture succeeded; a failed capture leaves the disk as it was |
| Timelapse.TimelapseState.RunRestConcurrently | timelapsebot.go:374-388 | stage A, then B on an hour boundary, then C on a day boundary, each only after the previous succeeded; an encoder failure leaves the disk as it was |
| Timelapse.TimelapseState.RollOver | timelapsebot.go:371-391 | on a 5-minute boundary the handoff and then the consolidation task; otherwise nothing, and no panic; after an encoder failure the disk is the handoff's, so the temp directory holds exactly the stills the live directory held |
| Timelapse.TimelapseState.Tick | timelapsebot.go:360-397 | one loop pass: disk, record and started programs are those of the tick's specification; on a panic the disk left behind satisfies `TickLeftBehind`: a failed rename leaves the disk as it was, a failed encode leaves the handoff's disk, with the former live stills in the temp directory, and a failed capture leaves the disk the rollover produced |
| Bot.RunBot | timelapsebot.go:355-404 | restore, LED off, then the ticks in order: on success the disk, record and log are the run's; on a panic, the ticks before it succeeded and the panicking one fails; the disk left behind relates to the disk of the ticks before as `TickLeftBehind` states for a failed rename, encode or capture |
| Bot.Loop | timelapsebot.go:360-403 | the loop runs the ticks in order until the first panic, matching the run's folds; on a panic the disk left behind is stated as for `Bot.RunBot` |
| Bot.RunCapturesOncePerTick | timelapsebot.go:394 | a run of n ticks starts `raspistill` exactly n times |
| Bot.RunHead | timelapsebot.go:396 | after a run the head is the label of the last tick |
| Bot.RunHeadMonotone | timelapsebot.go:364-396 | with a clock that never goes backwards, the head never moves back |
| Bot.RunKeepsLabels | timelapsebot.go:364-396 | a run keeps the directories distinct and the head a bucket label |
| Bot.RunKeepsPendingInDirs | timelapsebot.go:364-396 | a run keeps every pending clip in its stage's directory, so stage B never deletes the clip it writes |
| Bot.RunKeepsStillsConsistent | timelapsebot.go:326-396 | a run keeps the live directory holding exactly the stills numbered below the counter |
| Bot.FreshStartStillsConsistent | timelapsebot.go:134-198 | started without stills, every successful run keeps still numbers and files in step |

## Left out

- External programs: their output content, their combined output and its printing to stderr are not modelled. Only the argument vector, the reported exit status and the presence of the output file are.
- `gst-launch-1.0` is given `index=1`, so the encoder starts reading at `1.jpg`, while the stills are numbered from 0. What the encoder reads is outside the model.
- Errors of `os.Stat` other than "not exist", of `ioutil.ReadDir`, and of `os.RemoveAll` are not modelled. Each of these calls succeeds in the model.
- `os.Mkdir` and `os.Rename` fail in the model only on an existing or missing path. A missing parent directory or a permission error, on which the source also panics, is not modelled.
- `ioutil.ReadDir` sorts entries by name. The model takes entries in the order the disk lists them.
- Timekeeping is not modelled: `time.Now`, `nextTickShouldBe`, the sleep to the next tick and its drift. Each tick's clock reading is an input (`Bot.TickInput`).
- Time zones, month lengths and years outside 0–9999 are not modelled. Every time is UTC, any day from 1 to 31 is allowed, and the year is the four digits the layouts print.
- Logging is not modelled.
- The `Disk` type does not exclude entry names containing '/' or two entries with one name, which no real directory has. `Os.PutUnique` states what a write does when the names are unique; the other lemmas hold for every disk.
- The goroutine is not modelled as concurrent. The consolidation task runs to completion before `takeStill`, using the head from before the update. The Go program's unsynchronised sharing of the record is left out:
  - the task may see the new head;
  - two tasks may overlap;
  - the capture may happen before the task panics.

  The comments at timelapsebot.go:380 and :385 say each stage depends on the result of the one before, and the one at :393 that the still is taken right after the handoff. The model keeps that order and does not capture the race between the goroutine (timelapsebot.go:374-390) and the reassignment of the head at timelapsebot.go:396.
- The `for` loop of `main` runs forever in Go. `Bot.RunBot` runs a finite sequence of ticks.
- `stillMaxNumber` is a Go `int`. It is a `nat` here; overflow is out of reach in practice.
- Timelapse.RestoreState: `restoreState` updates a zero-valued record field by field. The model gathers the same values in locals and builds the record once at the end. The intermediate states are not modelled.
- Timelapse.TimelapseState.RunRestConcurrently: on a panic, the contract states that the disk specification predicts it and, for an encoder failure, the disk left behind. It does not state the record, the programs started, or the disk left behind by a failed merge or delete.
- Timelapse.TimelapseState.RollOver: on a panic, the contract states that the disk specification predicts it and, for a failed rename or encode, the disk left behind. It does not state the record, the programs started, or the disk left behind by a failed merge or delete.
- Timelapse.TimelapseState.Tick: on a panic, the contract states that the disk specification predicts it and, for a failed rename, encode or capture, the disk left behind. It does not state the record, the programs started, or the disk left behind by a failed merge or delete.
- Bot.RunBot: on a panic, the contract states which tick panicked, that the ticks before it succeeded, and, for a failed rename, encode or capture, the disk left behind. It does not state the record, the programs started, or the disk left behind by a failed merge or delete.
- Bot.Loop: on a panic, the contract states which tick panicked, that the ticks before it succeeded, and, for a failed rename, encode or capture, the disk left behind. It does not state the record, the programs started, or the disk left behind by a failed merge or delete.
