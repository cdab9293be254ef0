# Spring Batch XML import: archiver, job flow and status monitor

This project models the core of a small Spring Batch application that imports
student and teacher records from XML files. Each import job works like this:

- a check step looks for input files;
- the job flow fails the job when the check finds none;
- otherwise a chunk-oriented processing step runs. Its reader takes the first
  discovered file, its processor is the identity, and its writer saves every
  item of a chunk.
- a chunk listener moves the files on the shared processed-resources list into
  a `done` directory beside them. It renames a file when `done` already holds
  one of the same name, and then clears the list.

A separate job status monitor has two parts:

- a running flag that guards starting and stopping the job scheduler;
- an item counter.

Modules, one per component:

- `FileNames` (`file_names.dfy`): `lastIndexOf('.')`, base name and extension,
  the decimal timestamp, and the collision name `<base>_<millis><ext>`.
- `Files` (`files.dfy`): the file system the archiver touches. It holds regular
  files, directories, and the files the OS refuses to move. It models
  `Files.exists`, `Files.createDirectories` and `Files.move` without
  `REPLACE_EXISTING`, both as functions (`AfterCreateDirectories`, `AfterMove`)
  and as the methods of a `FileSystem` object.
- `Archiver` (`archiver.dfy`): the shared `ResourceList` and the
  `FileMovingListener`. `AfterChunk` is a loop proved against the specification
  function `Archive`, a left fold of `ArchiveStep` over a snapshot of the list.
- `BatchFlow` (`batch_flow.dfy`): `getResources`, the check tasklet, the flow
  routing, the reader builders, the processors, the writers, and a driver for
  the chunk-oriented step with chunk sizes 2 (students) and 4 (teachers).
- `JobMonitor` (`job_monitor.dfy`): the monitor as a class whose methods are
  proved against pure transition functions, with the invariants those keep.

Inputs that come from outside the program are parameters:

- The clock is `clock: nat -> nat`. `clock(i)` is the value of
  `System.currentTimeMillis()` read while the listener handles entry `i` of its
  snapshot, so the collision name is deterministic.
- A directory scan is a `Scan` value: the resolver's list of files, or an
  `IOException`.
- The XML parser is `contents: Path -> seq<T>`, the records of a file.
- The repository is a `Repository` object that records every saved item.
- `JobScheduler.scheduleJob()` and `stopJob()` do not exist in the shown
  `JobScheduler`. They are modelled as calls the monitor records on a
  `JobSchedulerCalls` object.

What the code does, as the model captures it:

- The reader builders read **only the first** discovered file. That file is the
  only entry they put on the list.
- The listener runs after **every** chunk, the last one included. The last
  chunk is the one on which the reader returns `null`. It is shorter than the
  chunk size, and empty when the record count is a multiple of the chunk size
  (zero included). An empty chunk is not written, but `afterChunk` still runs.
  - It archives the listed file at the first chunk boundary, and then clears the list.
  - Every later `afterChunk` finds the list empty and does nothing.
  - `BatchConfig.RunStep` states this: after the whole step, the file system is
    exactly one `ArchiveStep` of the first file away from where it started,
    however many chunks ran.
- The check step and the reader scan the directory separately. `RunJob` takes
  two scans, so files that vanish between the two steps lead to a completed
  job with the always-null reader.
- `NO_FILES` always fails the job. There is no switch to skip instead.

In short, the code archives at chunk boundaries, not after the whole step. It
reads one file per run, not every discovered file. A failed acquisition of the
run lock is only logged; the run goes ahead.

## Model

| member | source | states |
|---|---|---|
| `FileNames.LastIndexOf` | src/main/java/com/example/batch/demo/listener/FileMovingStepExecutionListener.java:51 | -1 exactly when the name has no '.', otherwise the index of a '.' with no '.' after it |
| `FileNames.BaseName` | src/main/java/com/example/batch/demo/listener/FileMovingStepExecutionListener.java:52 | the base is a prefix of the name: the whole name when it has no '.', otherwise everything before its last '.' |
| `FileNames.Extension` | src/main/java/com/example/batch/demo/listener/FileMovingStepExecutionListener.java:53 | base and extension together give the name back; the extension is empty exactly when the name has no '.', and otherwise starts at the last '.' and holds no other '.' |
| `FileNames.DecimalString` | src/main/java/com/example/batch/demo/listener/FileMovingStepExecutionListener.java:54 | the timestamp text is non-empty, all digits, and has no leading zero |
| `FileNames.ParseDecimalString` | src/main/java/com/example/batch/demo/listener/FileMovingStepExecutionListener.java:54 | reading the timestamp text back as a number gives the timestamp (round trip) |
| `FileNames.CollisionName` | src/main/java/com/example/batch/demo/listener/FileMovingStepExecutionListener.java:49-55 | the collision name is strictly longer than the original name, so it never equals it |
| `FileNames.CollisionNameWithoutDot` | src/main/java/com/example/batch/demo/listener/FileMovingStepExecutionListener.java:51-54 | with no '.', the base is the whole name, the extension is empty, and the result is `name + "_" + millis` |
| `FileNames.CollisionNameAtLastDot` | src/main/java/com/example/batch/demo/listener/FileMovingStepExecutionListener.java:51-54 | with a last '.' at k, the result is `name[..k] + "_" + millis + name[k..]` |
| `FileNames.CollisionNameSplit` | src/main/java/com/example/batch/demo/listener/FileMovingStepExecutionListener.java:52-54 | the renamed file keeps the extension, and its base name is the old base plus `"_" + millis` |
| `FileNames.CollisionNameInjective` | src/main/java/com/example/batch/demo/listener/FileMovingStepExecutionListener.java:54 | two different clock readings never give the same collision name |
| `FileNames.CollisionNameTwoDots` | src/main/java/com/example/batch/demo/listener/FileMovingStepExecutionListener.java:49-55 | `"a.b.xml"` at 1700 ms becomes `"a.b_1700.xml"` |
| `Files.EntryExists` | src/main/java/com/example/batch/demo/listener/FileMovingStepExecutionListener.java:40-49 | exists is true exactly for a regular file or a directory at the path, both at the resource check (:40) and at the collision check (:49); a file the OS refuses to move still exists |
| `Files.AfterCreateDirectories` | src/main/java/com/example/batch/demo/listener/FileMovingStepExecutionListener.java:46 | createDirectories fails exactly when a path component is a regular file; on success it adds exactly the directory and its parents, and no file changes |
| `Files.AfterMove` | src/main/java/com/example/batch/demo/listener/FileMovingStepExecutionListener.java:57 | a move succeeds exactly when the source is a movable file, the target does not exist, and the target directory does; it then removes the source, adds the target, and changes nothing else |
| `Files.FileSystem.Exists` | src/main/java/com/example/batch/demo/listener/FileMovingStepExecutionListener.java:40 | true exactly when a file or a directory is at the path |
| `Files.FileSystem.CreateDirectories` | src/main/java/com/example/batch/demo/listener/FileMovingStepExecutionListener.java:46 | the new state is `AfterCreateDirectories` of the old one, or unchanged when it throws |
| `Files.FileSystem.Move` | src/main/java/com/example/batch/demo/listener/FileMovingStepExecutionListener.java:57 | the new state is `AfterMove` of the old one, or unchanged when it throws |
| `Archiver.DoneDir` | src/main/java/com/example/batch/demo/listener/FileMovingStepExecutionListener.java:45 | the archive directory is the source's parent followed by `done` |
| `Archiver.DoneTarget` | src/main/java/com/example/batch/demo/listener/FileMovingStepExecutionListener.java:45 | the default target is `done/<name>` beside the source, and never the source itself |
| `Archiver.ChooseTarget` | src/main/java/com/example/batch/demo/listener/FileMovingStepExecutionListener.java:48-55 | the target lies in the done directory; it stays `done/<name>` exactly when nothing exists there, and otherwise is renamed to `CollisionName(name, millis)` |
| `Archiver.ArchiveStep` | src/main/java/com/example/batch/demo/listener/FileMovingStepExecutionListener.java:39-61 | a resource is skipped exactly when its file is gone; every attempted move (successful or not) targets the resource's done directory |
| `Archiver.ArchiveSkipsMissing` | src/main/java/com/example/batch/demo/listener/FileMovingStepExecutionListener.java:40-46 | createDirectories fails exactly for a present file whose done path runs through a regular file; that failure, like a skip, leaves the file system unchanged |
| `Archiver.Archive` | src/main/java/com/example/batch/demo/listener/FileMovingStepExecutionListener.java:38-62 | the reference fold that `AfterChunk` is proved against: one logged outcome per list entry; its order and effect are stated by `ArchiveVisitsInOrder`, `ArchiveKeepsUnlisted` and `ArchiveAddsOnlyDoneFiles` |
| `Archiver.ArchiveLogPrefix` | src/main/java/com/example/batch/demo/listener/FileMovingStepExecutionListener.java:38-62 | the log of a prefix of the list is the prefix of the log: a later entry never changes what was logged for an earlier one |
| `Archiver.ArchiveVisitsInOrder` | src/main/java/com/example/batch/demo/listener/FileMovingStepExecutionListener.java:38 | entry i is handled once, in list order, on the state entries 0..i-1 left behind |
| `Archiver.ArchiveTargetWithoutCollision` | src/main/java/com/example/batch/demo/listener/FileMovingStepExecutionListener.java:44-46 | without a collision the target is `<parent>/done/<name>`, and the `done` directory exists afterwards |
| `Archiver.ArchiveTargetOnCollision` | src/main/java/com/example/batch/demo/listener/FileMovingStepExecutionListener.java:48-57 | on a collision the target is `done/<CollisionName>`, it differs from `done/<name>`, and the pre-existing `done/<name>` stays |
| `Archiver.ArchiveMoveEffect` | src/main/java/com/example/batch/demo/listener/FileMovingStepExecutionListener.java:57-61 | a successful move removes the source and adds the target, and nothing else changes; a failure leaves every file in place |
| `Archiver.ArchiveMovesMovable` | src/main/java/com/example/batch/demo/listener/FileMovingStepExecutionListener.java:39-58 | a present, movable file whose done path is not blocked and whose chosen target is free is moved: the outcome is `Moved` to `done/<name>`, or to the collision name when `done/<name>` is taken, the source is gone and the target exists |
| `Archiver.ArchiveKeepsUnlisted` | src/main/java/com/example/batch/demo/listener/FileMovingStepExecutionListener.java:38-62 | no file that is not on the list is ever removed |
| `Archiver.ArchiveAddsOnlyDoneFiles` | src/main/java/com/example/batch/demo/listener/FileMovingStepExecutionListener.java:44-57 | every new file lies in the `done` directory of some listed resource |
| `Archiver.ResourceList.Snapshot` | src/main/java/com/example/batch/demo/listener/FileMovingStepExecutionListener.java:38 | the copy the loop iterates equals the list at that moment |
| `Archiver.ResourceList.constructor` | src/main/java/com/example/batch/demo/config/BatchConfig.java:45 | a new list is empty |
| `Archiver.ResourceList.Clear` | src/main/java/com/example/batch/demo/listener/FileMovingStepExecutionListener.java:63 | the list is empty afterwards |
| `Archiver.ResourceList.Add` | src/main/java/com/example/batch/demo/config/BatchConfig.java:147 | the resource is appended and no other entry changes |
| `Archiver.FileMovingListener.constructor` | src/main/java/com/example/batch/demo/listener/FileMovingStepExecutionListener.java:17-19 | the listener holds the very list object it was given (shared, not copied) |
| `Archiver.FileMovingListener.BeforeChunk` | src/main/java/com/example/batch/demo/listener/FileMovingStepExecutionListener.java:27-31 | neither the list nor the file system changes |
| `Archiver.FileMovingListener.AfterChunk` | src/main/java/com/example/batch/demo/listener/FileMovingStepExecutionListener.java:34-64 | the new file system and the log are `Archive` of the old state and the old list; the list is empty afterwards, whatever each file's outcome |
| `Archiver.FileMovingListener.AfterChunkError` | src/main/java/com/example/batch/demo/listener/FileMovingStepExecutionListener.java:66-70 | neither the list nor the file system changes |
| `BatchFlow.JobKind.ChunkSize` | src/main/java/com/example/batch/demo/config/BatchConfig.java:101-113 | the commit interval is 2 for the student step (:101) and 4 for the teacher step (:113), so always positive |
| `BatchFlow.GetResources` | src/main/java/com/example/batch/demo/config/BatchConfig.java:216-225 | the result is empty exactly when the scan threw or matched nothing; an IOException never escapes |
| `BatchFlow.CheckForFiles` | src/main/java/com/example/batch/demo/config/BatchConfig.java:81-95 | the exit status is NO_FILES exactly when discovery failed or was empty; the tasklet always returns FINISHED |
| `BatchFlow.Route` | src/main/java/com/example/batch/demo/config/BatchConfig.java:55-60 | NO_FILES fails the job, and exactly every other status goes to the processing step |
| `BatchFlow.Read` | src/main/java/com/example/batch/demo/config/BatchConfig.java:170-213 | the empty reader returns null on every call; any reader returns an item exactly while items remain, and the read made after `pos` deliveries returns record `pos`, so records come back in order |
| `BatchFlow.Process` | src/main/java/com/example/batch/demo/config/BatchConfig.java:264-267 | the processor returns the item it was given, unchanged |
| `BatchFlow.ProcessChunk` | src/main/java/com/example/batch/demo/config/BatchConfig.java:261-277 | the processors hand on every item unchanged |
| `BatchFlow.ChunksFlatten` | src/main/java/com/example/batch/demo/config/BatchConfig.java:99-104 | joining the chunks gives the records exactly: no loss, duplication or reordering |
| `BatchFlow.ChunksShape` | src/main/java/com/example/batch/demo/config/BatchConfig.java:100-104 | every chunk but the last holds exactly the chunk size, and the last holds fewer records (`(n-1)*size + last == total`) |
| `BatchFlow.ChunksBounded` | src/main/java/com/example/batch/demo/config/BatchConfig.java:99-116 | for any positive commit interval, no chunk is longer than the interval |
| `BatchFlow.StepChunksBounded` | src/main/java/com/example/batch/demo/config/BatchConfig.java:99-116 | a student chunk holds at most 2 records and a teacher chunk at most 4 |
| `BatchFlow.ChunksUnfold` | src/main/java/com/example/batch/demo/config/BatchConfig.java:99-104 | the chunks from a read position are the next chunk the provider reads, followed by the rest |
| `BatchFlow.ChunksAdvance` | src/main/java/com/example/batch/demo/config/BatchConfig.java:99-104 | appending the chunk read at a position keeps the chunks read so far a prefix of all chunks, the records read grow by exactly that chunk, and at the end the chunks read are all the chunks |
| `BatchFlow.Chunks` | src/main/java/com/example/batch/demo/config/BatchConfig.java:99-104 | there is always at least one chunk (the last, possibly empty, one on which the reader returned null); its full shape is stated by `ChunksShape` |
| `BatchFlow.ReadChunk` | src/main/java/com/example/batch/demo/config/BatchConfig.java:100-102 | the chunk is the next `size` records, or all the rest when fewer remain; the end is reported exactly when fewer than `size` remained |
| `BatchFlow.Repository.Save` | src/main/java/com/example/batch/demo/config/BatchConfig.java:284 | the item is appended to what the store holds |
| `BatchFlow.WriteChunk` | src/main/java/com/example/batch/demo/config/BatchConfig.java:280-285 | the store gains exactly the chunk's items, each once, in chunk order |
| `BatchFlow.RunChunk` | src/main/java/com/example/batch/demo/config/BatchConfig.java:99-106 | one chunk boundary: the store gains the chunk read, the file system is `Archive` of the list, and the list is empty |
| `BatchFlow.RunChunks` | src/main/java/com/example/batch/demo/config/BatchConfig.java:99-106 | the chunks are `Chunks` of the reader's records; the store gains all the records in order; after the step the file system is one `Archive` pass over the list as it stood at step start, and the list ends empty |
| `BatchFlow.RunLaterChunks` | src/main/java/com/example/batch/demo/config/BatchConfig.java:99-106 | with the list already empty, the remaining chunks complete `Chunks` of the records, the store gains the remaining records in order, and the file system does not change |
| `BatchFlow.StepSetup` | src/main/java/com/example/batch/demo/config/BatchConfig.java:144-147 | a reader over `[resources[0]]` delivers that file's records, and archiving `[resources[0]]` is one `ArchiveStep` |
| `BatchFlow.StepArchiveMovesFirst` | src/main/java/com/example/batch/demo/config/BatchConfig.java:97-147 | after the processing step, a movable first discovered file with a free target is gone from its directory and present at its chosen target in `done` |
| `BatchFlow.BatchConfig.BuildReader` | src/main/java/com/example/batch/demo/config/BatchConfig.java:133-168 | it clears the list first; with no files it returns the null reader and leaves the list empty; otherwise the reader covers exactly `[resources[0]]` and the list becomes `[resources[0]]` |
| `BatchFlow.BatchConfig.RunStep` | src/main/java/com/example/batch/demo/config/BatchConfig.java:97-119 | the chunks are the first file's records cut into chunks of the kind's size, none longer than that size; the store gains them in order; only the first file is archived, once; the list ends empty |
| `BatchFlow.BatchConfig.RunJob` | src/main/java/com/example/batch/demo/config/BatchConfig.java:51-78 | the job fails exactly when the check step finds no files, and then nothing is read, saved or moved; otherwise the processing step runs |
| `BatchFlow.BatchConfig.constructor` | src/main/java/com/example/batch/demo/config/BatchConfig.java:45 | the configuration owns a freshly allocated, empty processed-resources list |
| `JobMonitor.Wrap32` | src/main/java/com/example/batch/demo/job/JobStatusMonitor.java:15 | the int counter differs from the exact sum by a multiple of 2^32, and equals it when the sum is in range |
| `JobMonitor.Start` | src/main/java/com/example/batch/demo/job/JobStatusMonitor.java:25-30 | when stopped: one scheduleJob call is recorded and the flag becomes true; when running: no change; the counter is never touched |
| `JobMonitor.Stop` | src/main/java/com/example/batch/demo/job/JobStatusMonitor.java:33-38 | when running: one stopJob call is recorded and the flag becomes false; when stopped: no change; the counter is never touched |
| `JobMonitor.AddItems` | src/main/java/com/example/batch/demo/job/JobStatusMonitor.java:49-51 | the counter grows by exactly n when no int overflow occurs, and wraps modulo 2^32 otherwise; the flag and the calls do not change |
| `JobMonitor.ResetItems` | src/main/java/com/example/batch/demo/job/JobStatusMonitor.java:54-56 | the counter becomes 0; the flag and the calls do not change |
| `JobMonitor.StartIdempotent` | src/main/java/com/example/batch/demo/job/JobStatusMonitor.java:25-30 | a second startScheduler changes nothing |
| `JobMonitor.StopIdempotent` | src/main/java/com/example/batch/demo/job/JobStatusMonitor.java:33-38 | a second stopScheduler changes nothing |
| `JobMonitor.InitialValid` | src/main/java/com/example/batch/demo/job/JobStatusMonitor.java:15-16 | the monitor starts not running, with count 0, satisfying the invariant |
| `JobMonitor.ApplyPreservesValid` | src/main/java/com/example/batch/demo/job/JobStatusMonitor.java:25-56 | every operation keeps the calls alternating, with the flag true exactly after a scheduleJob |
| `JobMonitor.ReplayPreservesValid` | src/main/java/com/example/batch/demo/job/JobStatusMonitor.java:25-56 | any command sequence keeps that invariant |
| `JobMonitor.AlternatingBalance` | src/main/java/com/example/batch/demo/job/JobStatusMonitor.java:25-38 | alternating calls contain as many scheduleJob calls as stopJob calls, plus one when their number is odd |
| `JobMonitor.CallsBalanced` | src/main/java/com/example/batch/demo/job/JobStatusMonitor.java:25-38 | in every valid state stopJob was called as often as scheduleJob, minus one while running |
| `JobMonitor.JobSchedulerCalls.ScheduleJob` | src/main/java/com/example/batch/demo/job/JobStatusMonitor.java:27 | a scheduleJob call is appended to the calls recorded so far |
| `JobMonitor.JobSchedulerCalls.StopJob` | src/main/java/com/example/batch/demo/job/JobStatusMonitor.java:35 | a stopJob call is appended to the calls recorded so far |
| `JobMonitor.JobStatusMonitor.constructor` | src/main/java/com/example/batch/demo/job/JobStatusMonitor.java:15-22 | a new monitor is not running and has count 0 |
| `JobMonitor.JobStatusMonitor.StartScheduler` | src/main/java/com/example/batch/demo/job/JobStatusMonitor.java:25-30 | the new state is `Start` of the old |
| `JobMonitor.JobStatusMonitor.StopScheduler` | src/main/java/com/example/batch/demo/job/JobStatusMonitor.java:33-38 | the new state is `Stop` of the old |
| `JobMonitor.JobStatusMonitor.MonitorJobStatus` | src/main/java/com/example/batch/demo/job/JobStatusMonitor.java:41-46 | it reports the current count and changes no state |
| `JobMonitor.JobStatusMonitor.UpdateItemCount` | src/main/java/com/example/batch/demo/job/JobStatusMonitor.java:49-51 | the new state is `AddItems` of the old |
| `JobMonitor.JobStatusMonitor.ResetItemCount` | src/main/java/com/example/batch/demo/job/JobStatusMonitor.java:54-56 | the new state is `ResetItems` of the old |
| `JobMonitor.JobStatusMonitor.IsSchedulerRunning` | src/main/java/com/example/batch/demo/job/JobStatusMonitor.java:59-61 | returns the flag and changes nothing |

## Left out

- JobLockManager and JobLockListener: a process-wide `ReentrantLock`. The listener logs a failed `tryLock` and always unlocks. Its meaning lies in the JDK's lock semantics and in concurrency, so no lock is modelled.
- JobScheduler: `@Scheduled` timing, the enabled-flag early return, the timestamp job parameter and `JobLauncher.run`. These are framework wiring, and triggering is outside the model.
- The Python test-data generators: file I/O and randomness.
- `noOpStep`: no job flow refers to it.
- Spring Batch itself is reduced to what the model needs: the flow engine, transactions, StAX/JAXB parsing and glob matching are out. The chunk driver (`ReadChunk`, `RunChunk`, `RunChunks`, `RunLaterChunks`) follows the provider's contract: read up to the chunk size, stop at `null`, write only non-empty chunks, call `afterChunk` after every chunk.
- `BatchFlow.BatchConfig.RunStep`: does not model parse errors (strict StAX), repository `save` failures or an interrupted `Thread.sleep` (which becomes a `RuntimeException`). So no chunk fails, and `afterChunkError` is never reached from the driver.
- `Thread.sleep(2000)` after each written chunk and every `System.out`/`System.err` line, except that the listener's per-file messages are returned as the `Outcome` log.
- The processed-resources list is shared between the student and teacher steps. The model shares it too, but it does not model two jobs running at once.
- `Files.FileSystem.Move`: the model never moves a directory. A directory at a listed path counts as existing for `resource.exists()`, but the move of it fails. The strict StAX reader would fail to open such a path before any chunk, so the case does not reach `afterChunk`. Other environmental I/O failures (permissions, a file held open elsewhere) are the `locked` set, and they strike at the move.
- `Files.AfterCreateDirectories`: fails only when a path component is a regular file. Other failures of `createDirectories` are not distinguished from move failures.
- `ExitStatus`: reduced to `NO_FILES` and a completed status. Spring's severity ordering when combining exit statuses is not modelled.
- The clock readings are non-negative (`nat`); the Java `long` range is not modelled.
- `JobMonitor.JobStatusMonitor`: its methods are modelled as calls made one at a time. In the code, `isSchedulerRunning` is a plain unsynchronised field, and `startScheduler`/`stopScheduler` check it and then act. Two concurrent callers could both call `scheduleJob()`. So `JobMonitor.ApplyPreservesValid`, `JobMonitor.ReplayPreservesValid` and `JobMonitor.CallsBalanced` hold only for sequential callers. Only the counter is atomic (`AtomicInteger`).
- The resource patterns (`students/*.xml`, `teachers/*.xml` under a fixed directory): the directory scan is a `Scan` parameter, so how a pattern selects files is not modelled.
