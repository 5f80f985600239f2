# Steel-inspection line: a verified model

The program drives a surface inspection of rolled steel. Detectors on the line switch image
capture on and off; a job instruction from the Level2 system opens a directory for the piece
being rolled; camera images are filed there, numbered per camera; worker processes score the
images and a collector writes one result row per image; defect images are copied under a name
that a later label message is parsed against; and job-complete and alive packets go back to
Level2. This project models the logic between the vendor libraries and proves what it promises
over all inputs and all runs, or the exact condition under which it does.

| file | what it models |
|---|---|
| `FanIn.dfy` | result rows and end markers from many processes with thread pools, over one shared queue, to one collector |
| `CopyPool.dfy` | the pool of threads that copies defect images, each over a session of its own |
| `BoundedQueue.dfy` | the bounded queue with one mutex and one condition variable, cut into atomic steps |
| `Level2Client.dfy` | the client loop that connects to Level2, sends, and drops the socket on a failed send |
| `LineSignal.dfy` | sampling of the digital lines, publishing on change, the camera latch and the instruction gate |
| `Stacker.dfy` | the file stacker: active directories, image numbers, the file system as directories and files |
| `LinePass.dfy` | latch, gate and stacker composed: what happens to one pass of a piece |
| `Normalizer.dfy` | the short form of a product standard, its regular expressions and its loops |
| `Packets.dfy` | the fixed-width packets: job complete, alive, job instruction |
| `LabelName.dfy` | names of labelled images, printed by one program and parsed by another |
| `InferenceJobs.dfy` | inference jobs queued from dispatched instructions, and the way from an instruction packet to a label |
| `Lens.dfy` | the lens driver: two-byte transfers, waiting for a busy bit, the wait budget, the cached positions |
| `EndpointIndex.dfy` | the endpoint index of the connection editor |
| `Sums.dfy`, `Text.dfy`, `Wrappers.dfy` | sums over sequences and ranges, white space and characters, `Option` |

Granularity and assumptions. Concurrent parts (fan-in, copy pool, bounded queue) are step
machines, each step one atomic action of one thread, and a run is any interleaving. A process
queue keeps the order in which one process puts. The line, the stacker and the lens take one
message or one operation at a time: the program takes no lock around the stacker's directories
and counters. The network, the sessions, the bridge and the file system answer as an
environment decides: connects, sends and reads fail or succeed at will, and a directory may be
refused. A successful read of the bridge delivers 1 to 61 bytes and a failed one returns a code
other than 0. Lens speeds are at least 1. Streams have distinct directory names without a dot,
nobody else deletes or adds files, and writing into a directory that exists succeeds. Dates
printed into packets have 14 characters, and no date has an underscore.

Where a natural claim fails, the condition is exact:

- Normalising ignores white space and is idempotent except on blank text: `""` gives
  `"Unknown"`, while blank text gives `""` (`Normalizer.WhiteSpaceIgnored`, `Normalizer.Idempotent`).
- The label parser splits on `_`, and the normaliser writes `_` for `/`: a name leads back to
  its image exactly when no section the short form keeps has a `/` or a `_`
  (`LabelName.StandardFindsImage`, `InferenceJobs.InstructionToLabel`); one standard that
  breaks it is `W 14 x 6-3/4 x 30`. A label with an underscore still finds its image, but is cut
  (`LabelName.NameFindsImage`).
- The stacker and the inference job use the same directory exactly when the standard is not
  blank (`InferenceJobs.PacketToDirectories`): for a blank one the stacker
  invents a name, the job does not, and the copy of the defect images invents another one
  (`InferenceJobs.CopyReadsStackerDirectory`).
- A queued job names the directory the stacker files into exactly when its description has the
  date and the filed standard of the last dispatched instruction
  (`InferenceJobs.JobsNameStackerDirectories`,
  `InferenceJobs.PassAndItsJob`); after an instruction without a preset the next
  job is a stale one (`InferenceJobs.StaleJob`).
- The stacker opens a job's directory below every target in use where nothing is in the way
  (`Stacker.OpensEveryTarget`), unless one target lies inside another; which it opens then is told
  exactly as well (`Stacker.DispatchOpens`).
- A pass is split over two directories exactly when an instruction arrives after a message with
  both detectors off, which is then an offline one (`LinePass.WhenAPassIsSplit`).
- Two jobs come from the same instruction exactly when no instruction with a preset was
  dispatched between the messages that queued them (`InferenceJobs.SameOrigin`). No two published
  messages in a row are the same (`LineSignal.PublishedDiffer`), but a change of the offline line
  is enough to start the same job again (`InferenceJobs.RepeatedStartQueuesAgain`).
- For the latch and the gate, publishing on change loses nothing; for the job queue it makes a
  difference, one job for every sample that repeats a starting one, and none exactly when there
  is no such sample or no description (`InferenceJobs.JobsNeedChanges`).
- With all its operations, waiting `pop` included, the bounded queue can lose a wake-up exactly
  when the threads outnumber the places by two or more (`BoundedQueue.WakeUpLostIff`). The
  queues of the Level2 interface have 100 places and a few threads each, and nobody there calls
  the waiting `pop`: either is enough (`BoundedQueue.FewThreadsLoseNothing`,
  `BoundedQueue.NoWakeUpLost`).
- The fan-in ends exactly when no worker dies while loading its models (`FanIn.FanInEnds`).
- The copy pool tries every task exactly when some session is opened (`CopyPool.JoinedMeansTried`).
- The reset of the alive time on connecting acts on a variable of that block only, so a new
  connection goes on counting where the old one stopped (`Level2Client.AliveSchedule`): its first
  alive packet comes after a full period exactly when no connected round came before
  (`Level2Client.FirstAliveAfter`); a run where one did is `Level2Client.EarlyAlive`.
- Reading the focus or the iris position sets the cache even when the read fails
  (`Lens.ControlImpl.FocusCurrentAddrReadSet`, `Lens.ControlImpl.IrisCurrentAddrReadSet`); every move and initialisation leaves it alone on failure.
- A publisher written with host `*` is joined to a subscriber of the same transport and port
  exactly when that one is written with `*` too (`EndpointIndex.WildcardBindIsMissed`).

## Model

| member | source | states |
|---|---|---|
| `FanIn.StepInv` | monitor/subscriber/model_inference.py:438-521 | every step of every thread keeps the account: rows sent, images in progress and images waiting are the worker's images; an end marker is the last thing sent; progress, counted markers and result lines match what was taken |
| `FanIn.FanInComplete` | monitor/subscriber/model_inference.py:266-289 | over any number of workers, images and any interleaving: when the collector leaves its loop, the rows after the header are, as a multiset, one per submitted image, progress is the number of images, all queues are empty, all workers have ended |
| `FanIn.VerdictsArrive` | monitor/subscriber/model_inference.py:277-286 | when the collector leaves its loop it has had from every worker exactly what that worker put, image and verdict, in that order, and has written one line per row in the order they came |
| `FanIn.EndMarkNeverOvertakes` | monitor/subscriber/model_inference.py:457-468 | whatever stands in the pipe before another item of the same worker is a row, so no end marker overtakes a row of its worker |
| `FanIn.SplitBySender` | monitor/subscriber/model_inference.py:277-286 | counting the markers and rows of the mixed stream is the same as adding them up sender by sender |
| `FanIn.FanInEnds` | monitor/subscriber/model_inference.py:266-289 | every run has at most 5 steps per image and 4 per worker; where no step is left the collector is through if and only if no worker died loading its models; a completed run has exactly that many steps |
| `FanIn.SomeStep` | monitor/subscriber/model_inference.py:457-468 | as long as the collector waits and no worker is dead, some step is enabled |
| `FanIn.StepFalls` | monitor/subscriber/model_inference.py:457-468 | a measure over unstarted images, rows to send, uncounted images, end markers and unread items falls by one with every step |
| `FanIn.DeadKeepsWaiting` | monitor/subscriber/model_inference.py:440-447 | a worker that died before its pool ran keeps the collector waiting for ever |
| `FanIn.CollectResults` | monitor/subscriber/model_inference.py:277-286 | the collector's loop takes items up to the marker that completes the count and lists exactly the rows among them, in order |
| `FanIn.PoolNeverExceeded` | monitor/subscriber/model_inference.py:457-466 | at no point of any run does a worker process more images at once than its pool has threads |
| `CopyPool.StepInv` | monitor/subscriber/model_inference.py:384-418 | every step keeps: tasks queued, held and tried add up to the tasks given, and the count is that of the exits with 0 |
| `CopyPool.AtMostOnce` | monitor/subscriber/model_inference.py:364-436 | at any point of any interleaving no task is tried or held more often than it was queued; there is one attempt per execution, and the count is the number of executions that exit with 0 |
| `CopyPool.Sessions` | monitor/subscriber/model_inference.py:364-426 | as many threads as tasks, but at most eight; after the joins some thread has closed its session if and only if some session was opened |
| `CopyPool.JoinedMeansTried` | monitor/subscriber/model_inference.py:364-436 | after the joins every task was tried exactly as often as queued if and only if some session was opened; otherwise nothing was tried and nothing counted |
| `CopyPool.CopyPoolEnds` | monitor/subscriber/model_inference.py:417-426 | every run has at most 4 steps per task, and it can go no further exactly when all threads can be joined |
| `BoundedQueue.StepSafe` | components/dk.level2.interface/concurrent_queue.hpp:20-93 | every step of every thread keeps pushed = popped ++ queued, the limit, and mutual exclusion |
| `BoundedQueue.FirstInFirstOut` | components/dk.level2.interface/concurrent_queue.hpp:20-93 | over every run: what was pushed is what was popped and then what is queued, in order; the size never exceeds the limit; no two threads are inside the critical section |
| `BoundedQueue.RunDoes` | components/dk.level2.interface/concurrent_queue.hpp:20-83 | over every run: every push that finds room has put its item, every pop that finds an item has taken the oldest, and every push or pop that got through has sent exactly one notification or still has to; looking whether the queue is empty sends none |
| `BoundedQueue.StepAwake` | components/dk.level2.interface/concurrent_queue.hpp:57-83 | without the waiting pop every step keeps: a pusher asleep while there is room has a woken pusher or an unsent notification on its way |
| `BoundedQueue.NoWakeUpLost` | components/dk.level2.interface/concurrent_queue.hpp:57-83 | over every run without the waiting pop no wake-up is lost: once all threads are idle or asleep, nobody sleeps unless the queue is full |
| `BoundedQueue.StepServed` | components/dk.level2.interface/concurrent_queue.hpp:20-93 | with at most limit + 1 threads every step of every operation keeps: sleeping pushers and poppers never meet, and beside a sleeper there are enough threads on their way or about to notify for every free place, or every item |
| `BoundedQueue.FewThreadsLoseNothing` | components/dk.level2.interface/concurrent_queue.hpp:20-93 | over every run of all operations with at most limit + 1 threads: once all are idle or asleep, no pusher sleeps while there is room and no popper beside an item |
| `BoundedQueue.WaitingPopLosesWakeUp` | components/dk.level2.interface/concurrent_queue.hpp:24-83 | for every limit of at least 1 and every number of threads of at least limit + 2: a run after which all threads are idle or asleep and a pusher sleeps although the queue is empty |
| `BoundedQueue.WakeUpLostIff` | components/dk.level2.interface/concurrent_queue.hpp:20-93 | a run that ends with a wake-up lost exists if and only if there are at least limit + 2 threads |
| `BoundedQueue.ConcurrentQueue.PopAsync` | components/dk.level2.interface/concurrent_queue.hpp:57-72 | pops the oldest item that was pushed and not popped, and says false exactly when there is none |
| `BoundedQueue.ConcurrentQueue.Push` | components/dk.level2.interface/concurrent_queue.hpp:75-83 | one pass of the waiting loop: appends to what was pushed exactly when there is room, and changes nothing on a full queue |
| `BoundedQueue.ConcurrentQueue.IsEmpty` | components/dk.level2.interface/concurrent_queue.hpp:36-43 | true exactly when everything pushed was popped |
| `Level2Client.DoClientWork` | components/dk.level2.interface/dk.level2.interface.cc:121-225 | the loop leaves exactly the trace and queues of the client's step function, the last socket closed; what the steps do is told by the rows below |
| `Level2Client.ClientRun` | components/dk.level2.interface/dk.level2.interface.cc:121-225 | over every sequence of connect and send outcomes the trace is accepted by an independent observer (a connect only on the fresh current socket; sends only on the current, connected, unbroken one; a refused, broken or unconnected one is closed before the next is created) and ends without a socket; job packets are attempted once each in push order or are still queued, and so are alarms |
| `Level2Client.SocketsBalance` | components/dk.level2.interface/dk.level2.interface.cc:132-173 | in an accepted trace sockets are created one after the other, each is closed exactly once, or is the current one |
| `Level2Client.TriedOnce` | components/dk.level2.interface/dk.level2.interface.cc:144-160 | no socket is connected twice: a refused one is given up, a lost one is not connected again |
| `Level2Client.TurnsMarked` | components/dk.level2.interface/dk.level2.interface.cc:131-165 | over every run each turn does exactly one thing, in order: it creates a socket, tries to connect it with the outcome of that turn, or is a connected round |
| `Level2Client.NoServer` | components/dk.level2.interface/dk.level2.interface.cc:131-160 | while the server is down, n turns have created (n + 1) / 2 sockets, each refused and closed before the next one is created |
| `Level2Client.SendsOnlyWhileUp` | components/dk.level2.interface/dk.level2.interface.cc:160-209 | nothing is sent on a socket before it is connected, after a send on it failed, or after it was closed |
| `Level2Client.JobProgress` | components/dk.level2.interface/dk.level2.interface.cc:160-209 | a connected turn attempts the oldest job packet, pushed in this turn or before, exactly when neither the alive packet nor the alarm before it fails |
| `Level2Client.AlarmProgress` | components/dk.level2.interface/dk.level2.interface.cc:182-196 | a connected turn attempts the oldest alarm, pushed in this turn or before, exactly when the alive packet before it does not fail |
| `Level2Client.TurnsOutcomes` | components/dk.level2.interface/dk.level2.interface.cc:164-211 | the sends a turn adds to the trace end as the network has it in that turn, and nothing earlier changes |
| `Level2Client.HealthyLinkDrains` | components/dk.level2.interface/dk.level2.interface.cc:131-211 | while every send and connect succeeds, whatever is pushed meanwhile: the client is connected after at most two turns and stays so, nothing leaves the queue before, and from then on the queue has at most m job packets if and only if neither the packets held and pushed since the start, less one per connected turn, nor those pushed in any last stretch of turns, less one per turn, exceed m |
| `Level2Client.QuietQueueEmpties` | components/dk.level2.interface/dk.level2.interface.cc:131-211 | if nothing is pushed, the queue is empty after one healthy turn per packet and the two to connect |
| `Level2Client.AliveSchedule` | components/dk.level2.interface/dk.level2.interface.cc:145-177 | the number of alive packets attempted depends on the connected rounds alone: one per full period of 10 x interval, across reconnects |
| `Level2Client.AlivesApart` | components/dk.level2.interface/dk.level2.interface.cc:162-177 | between two attempts at an alive packet there is a full period of connected rounds |
| `Level2Client.FirstAliveAfter` | components/dk.level2.interface/dk.level2.interface.cc:145-177 | the first alive packet after a connect comes no later than the connected round after a full period, and in that round if and only if no connected round came before the connect |
| `Level2Client.EarlyAlive` | components/dk.level2.interface/dk.level2.interface.cc:145-177 | for every period: a run whose second connection sends its first alive packet one round early, because one connected round was spent on the first |
| `Level2Client.CountingStep` | components/dk.level2.interface/dk.level2.interface.cc:162-177 | the counter that is reset to 0 and then incremented reaches the period exactly at the positive multiples of it |
| `LineSignal.DaqDioReadTask` | components/ni.daq.controller/ni.daq.controller.cc:193-232 | the sampling loop publishes exactly the successful samples that differ from the last successful one, the first from zeros |
| `LineSignal.CameraGrabber.ImageStreamControlTask` | components/basler.gige.cam.grabber/basler.gige.cam.grabber.cc:223-257 | images stream after the messages if and only if they did before and no message ended it, or some message had the first detector on while online and no later one was online with both detectors off |
| `LineSignal.Level2Gate.LineCheckWork` | components/dk.level2.interface/dk.level2.interface.cc:80-118 | the online flag is that of the latest line message, and the gate is shut exactly when it has a detector on; without a message both stay as they were |
| `LineSignal.ChangesSuffice` | components/ni.daq.controller/ni.daq.controller.cc:199-215 | for every sequence of samples and failed reads, latch, online flag and gate end as if every sample had been published, and publishing the last one again would change nothing |
| `LineSignal.LinesDecide` | components/ni.daq.controller/ni.daq.controller.cc:199-253 | from the lines to the view, over every sequence of samples and failed reads: images stream if and only if line 1 was found on together with line 3 and no later read found line 3 on and lines 0 and 1 off; the last good read's line 3 is the online flag, its lines 0 and 1 shut the gate |
| `LineSignal.SentWhen` | components/ni.daq.controller/ni.daq.controller.cc:199-253 | a read is published exactly when it does not fail and differs from the last one that did not, zeros at the start; line 1 is the first detector, line 0 the second, line 3 online, line 2 offline |
| `LineSignal.PublishedDiffer` | components/ni.daq.controller/ni.daq.controller.cc:199-215 | when the lines read 0 or 1, no two published messages in a row are the same |
| `LineSignal.GateWhileStreaming` | components/basler.gige.cam.grabber/basler.gige.cam.grabber.cc:243-250 | while images stream, the gate is open exactly when the latest message has both detectors off, and that message is then an offline one |
| `Stacker.FileStacker.Level2Dispatch` | components/general.file.stacker/general.file.stacker.cc:203-282 | the dispatch loop turns the stacker's state into that of the specification, for complete and incomplete messages, refused and existing directories |
| `Stacker.FileStacker.ResetCounters` | components/general.file.stacker/general.file.stacker.cc:274-278 | every stream counts from 0 again, no stream is lost |
| `Stacker.FileStacker.ImageStackerTask` | components/general.file.stacker/general.file.stacker.cc:90-131 | filing an image turns the stacker's state into that of the specification: next number, one file per active directory |
| `Stacker.ImageNameTells` | components/general.file.stacker/general.file.stacker.cc:105 | camera and number can be read off an image's name, so different numbers give different names |
| `Stacker.NextPlaceFree` | components/general.file.stacker/general.file.stacker.cc:105-121 | in every reachable state the place of the next image is free in every active directory |
| `Stacker.FiledFiles` | components/general.file.stacker/general.file.stacker.cc:105-121 | an image adds exactly one new file under each active directory and leaves every other file as it was |
| `Stacker.StepInv` | components/general.file.stacker/general.file.stacker.cc:90-278 | every job or image message keeps the invariant and every existing file |
| `Stacker.StackerRun` | components/general.file.stacker/general.file.stacker.cc:90-278 | over every run from any file tree: no existing file is ever changed; under every active directory each stream has exactly its images since the last complete job message, numbered from 1 without gaps, with their data; all active directories hold the same images |
| `Stacker.SameJobAgain` | components/general.file.stacker/general.file.stacker.cc:230-236 | a second job message for the same directory opens none of the directories the first one opened |
| `Stacker.DispatchedWhere` | components/general.file.stacker/general.file.stacker.cc:221-236 | after a job message the stacker files into that job's directory below targets in use, and nowhere else |
| `Stacker.DispatchOpens` | components/general.file.stacker/general.file.stacker.cc:229-278 | after a complete message, for any targets and any file tree and for every path, exactly: is it filed into, is it a directory, is it a file, with which contents; level2.txt is written by the target that opens a directory unless it takes images only; every stream counts from 0 |
| `Stacker.OpensEveryTarget` | components/general.file.stacker/general.file.stacker.cc:229-237 | with no target inside another one, the stacker then files into a directory if and only if it is the job's below a target in use, was not there, is not refused, and has no file in the way; and it exists |
| `Stacker.JobDirectory` | components/general.file.stacker/general.file.stacker.cc:221-232 | the directory is the date's first eight characters, then date, underscore and standard, or Unknown, width and height in tenths truncated towards zero, with x between |
| `Stacker.IncompleteDropsImages` | components/general.file.stacker/general.file.stacker.cc:213-219 | after an incomplete message no image leaves a trace in the file system until the next job message |
| `LinePass.OnePassOneDirectory` | components/dk.level2.interface/dk.level2.interface.cc:97-106 | from an enabling message on, while streaming and every line message online, no instruction is dispatched and the active directories stay the same |
| `LinePass.PassIsFiled` | components/general.file.stacker/general.file.stacker.cc:105-121 | under the same conditions every frame of the pass is on disk, under each directory active at its start and each stream's name, numbered on without gaps, with its data, and no file is changed |
| `LinePass.LineRun` | components/general.file.stacker/general.file.stacker.cc:90-278 | over every run of line messages, instructions and frames, passes and dispatches mixed: no file is changed, and under every active directory each stream has exactly the frames passed on while streaming since the last complete instruction dispatched, numbered without gaps, with their data |
| `LinePass.WhenAPassIsSplit` | components/dk.level2.interface/dk.level2.interface.cc:345-361 | in mid-pass an instruction is dispatched if and only if the latest line message had both detectors off, and then it was offline |
| `LinePass.WhenDispatched` | components/dk.level2.interface/dk.level2.interface.cc:97-106 | over every run an instruction reaches the stacker if and only if there was no line message yet or the latest one had both detectors off; otherwise the stacker stays as it is |
| `LinePass.OfflineGapSplitsPass` | components/general.file.stacker/general.file.stacker.cc:213-237 | it happens: after an offline gap between the detectors a job instruction makes the stacker give up every directory of the running pass |
| `LinePass.ViewFollowsSignals` | components/basler.gige.cam.grabber/basler.gige.cam.grabber.cc:243-250 | over every run latch and gate depend on the line messages alone |
| `LinePass.SamplesDriveTheLine` | components/ni.daq.controller/ni.daq.controller.cc:199-215 | a line driven by published changes is in the state it would have with every sample published |
| `Normalizer.MtStandNormalize` | components/dk.level2.interface/dk.level2.interface.cc:726-820 | the source's steps (collapse, trim, split, prefix match, resize, join) compute the short form as defined on the sections between the x of the text without white space |
| `Normalizer.TakeApart` | components/dk.level2.interface/dk.level2.interface.cc:755-769 | every text can be taken apart into dimensions and letters x like that |
| `Normalizer.NormalOfDims` | components/dk.level2.interface/dk.level2.interface.cc:745-818 | told without sections: whatever dimensions the letters x of either case leave between them, the short form is the first two after H or h and a digit, all of them otherwise, joined by a small x, with _ for / |
| `Normalizer.NoSeparator` | components/dk.level2.interface/dk.level2.interface.cc:745-753 | a text that is not blank and has no x of either case becomes itself without white space, with _ for / |
| `Normalizer.NothingElseLost` | components/dk.level2.interface/dk.level2.interface.cc:755-818 | a standard that keeps its dimensions loses nothing but white space and letters x |
| `Normalizer.OnlyLettersX` | components/dk.level2.interface/dk.level2.interface.cc:770-773 | a text of letters x alone is kept, its white space gone |
| `Normalizer.SplitParts` | components/dk.level2.interface/dk.level2.interface.cc:755-769 | the token loop yields the sections of the text, inner blanks still in place |
| `Normalizer.AssembleParts` | components/dk.level2.interface/dk.level2.interface.cc:775-818 | prefix match, cut to two dimensions and joining give the kept sections joined by x with _ for / |
| `Normalizer.JoinDims` | components/dk.level2.interface/dk.level2.interface.cc:803-815 | the joining loop drops no dimension |
| `Normalizer.MatchFact` | components/dk.level2.interface/dk.level2.interface.cc:778-790 | the prefix expression finds the letter H exactly when the section without white space is H and a digit |
| `Normalizer.WhiteSpaceIgnored` | components/dk.level2.interface/dk.level2.interface.cc:653-657 | normalising the text without white space gives the same, if and only if the text is empty or not blank; the empty text gives Unknown |
| `Normalizer.Idempotent` | components/dk.level2.interface/dk.level2.interface.cc:726-820 | normalising twice is normalising once, if and only if the text is empty or not blank |
| `Normalizer.NamesADirectory` | components/dk.level2.interface/dk.level2.interface.cc:740-743 | the short form of a text that is not blank is not empty and has no white space and no / |
| `Normalizer.EmptyWhenBlank` | components/dk.level2.interface/dk.level2.interface.cc:726-753 | the short form is empty exactly for blank texts other than the empty one |
| `Normalizer.HKeepsTwo` | components/dk.level2.interface/dk.level2.interface.cc:796-801 | an H standard keeps its first two dimensions and no more |
| `Normalizer.OthersKeepAll` | components/dk.level2.interface/dk.level2.interface.cc:796-818 | any other standard keeps all its sections |
| `Normalizer.UnderscoreFrom` | components/dk.level2.interface/dk.level2.interface.cc:740-743 | the short form has an underscore exactly when a kept section has an underscore or a slash |
| `Text.RemoveSpaceTells` | components/dk.level2.interface/dk.level2.interface.cc:653-657 | blank, tab, line feed, vertical tab, form feed and carriage return are removed, nothing else |
| `Text.SlashTells` | components/dk.level2.interface/dk.level2.interface.cc:740-743 | / becomes _ and every other character stays |
| `Packets.FieldsTile` | components/dk.level2.interface/protocol.hpp:7-40 | fields of the widths of a layout, written one after the other, fill the packet without gap or overlap, and each is read back as written |
| `Packets.PacketSizes` | components/dk.level2.interface/protocol.hpp:7-136 | job complete has 101 bytes, alive 50, job instruction 512 |
| `Packets.TextFieldBack` | components/dk.level2.interface/dk.level2.interface.cc:599-617 | a left-adjusted text field gives its text back exactly when the text fits and does not end in a blank |
| `Packets.NumberFieldBack` | components/dk.level2.interface/dk.level2.interface.cc:619-622 | a zero-filled number field gives its number back exactly when it is not negative and has no more digits than the field |
| `Packets.GeneratePacketJobComplete` | components/dk.level2.interface/dk.level2.interface.cc:581-634 | the buffer filled field by field is the fields of the job-complete packet in order |
| `Packets.JobCompleteRoundTrip` | components/dk.level2.interface/protocol.hpp:124-136 | a job-complete packet has 101 bytes and gives the job back exactly when its texts fit and the frame count is 0 to 99999 |
| `Packets.JobCompleteBytes` | components/dk.level2.interface/protocol.hpp:124-136 | which bytes of a job-complete packet are which field, from 0 to 100 |
| `Packets.AliveGenerator.GeneratePacketAlive` | components/dk.level2.interface/dk.level2.interface.cc:447-487 | the n-th generated alive packet carries n modulo 10000 |
| `Packets.AliveCarriesCount` | components/dk.level2.interface/protocol.hpp:101-108 | an alive packet has 50 bytes and four digits that read as n modulo 10000 |
| `Packets.AliveBytes` | components/dk.level2.interface/dk.level2.interface.cc:447-487 | which bytes of an alive packet are which field; bytes 28-29 are 01 while working and 99 otherwise |
| `Packets.TextRead` | components/dk.level2.interface/dk.level2.interface.cc:653-657 | a padded text field is read back exactly when the text fits and has no white space |
| `Packets.NumberRead` | components/dk.level2.interface/dk.level2.interface.cc:338-344 | a number field, filled up with zeros or blanks, is read back exactly when the number fits and no zero comes before a minus sign |
| `Packets.StoiTells` | components/dk.level2.interface/dk.level2.interface.cc:338-344 | a sign or none, digits, and whatever follows: the number of the digits with the sign; none without digits |
| `Packets.InstructionRoundTrip` | components/dk.level2.interface/dk.level2.interface.cc:322-344 | an instruction packet, each number filled up with zeros or blanks and the other fields whatever they are, is received as it was sent, its standard normalised, if and only if every field survives its width |
| `Packets.InstructionBytes` | components/dk.level2.interface/protocol.hpp:7-42 | a packet is received as what is published if and only if it has 512 bytes, the code 1001, and: the texts are bytes 4-17, 24-38, 39-53 and 71-72 without white space, the raw standard bytes 73-102, the numbers those of bytes 171-174, 193-196, 197-200, 201-203, 204-206 and 214-219 |
| `Packets.ReceivedStandard` | components/dk.level2.interface/dk.level2.interface.cc:335-337 | the raw standard is bytes 73 to 102 of the packet and the short form is that of the field |
| `LabelName.SplitJoin` | monitor/surface_defect_monitor/window.py:640-643 | splitting joined fields gives all of them back in front exactly when none has the separator |
| `LabelName.RoundTrip` | monitor/surface_defect_monitor/window.py:640-651 | a printed label name parses back to the same six fields exactly when none of them has an underscore |
| `LabelName.DefectNameIsPrinted` | monitor/subscriber/model_inference.py:344-347 | the name of a defect copy is a printed label name with label x |
| `LabelName.NameFindsImage` | monitor/surface_defect_monitor/window.py:665-674 | a labelled name with any label always parses; it leads to the directory of the image and its pattern matches the image's file exactly when the standard has no underscore; the image gets that very label exactly when the label has none either |
| `LabelName.MatchesOnly` | monitor/surface_defect_monitor/window.py:673 | the file pattern of a label update matches the image it names, under any label, and no other image |
| `LabelName.StandardFindsImage` | components/dk.level2.interface/dk.level2.interface.cc:796-818 | for a normalised standard and a label without underscore the round trip holds exactly when no kept section has an underscore or a slash |
| `LabelName.SlashBreaksNames` | components/dk.level2.interface/dk.level2.interface.cc:740-743 | a slash in a standard that does not start with H breaks the names of all its images |
| `LabelName.AngledStandardBreaksNames` | unittest/target_dirname_regex/target_dirname_regex.cc:109-250 | one such standard |
| `InferenceJobs.SDDModelInference.AddJobLv2Info` | monitor/subscriber/model_inference.py:135-145 | all eight fields of the description are replaced and the queued jobs are left alone |
| `InferenceJobs.SDDModelInference.OnLineSignal` | monitor/subscriber/model_inference.py:187-206 | a message with both detectors off while online queues one job with the directory and the eight fields of the description, if there is one, and no other message does |
| `InferenceJobs.SDDModelInference.TakeJob` | monitor/subscriber/model_inference.py:221-227 | the oldest job is taken, if there is one |
| `InferenceJobs.TakesDrain` | monitor/subscriber/model_inference.py:221-227 | n calls take the n oldest jobs in order, or all there are |
| `InferenceJobs.JobsStayFixed` | monitor/subscriber/model_inference.py:135-143 | over every run jobs are taken in the order they were queued, and a queued job stays as it was under everything later |
| `InferenceJobs.JobOrigin` | monitor/subscriber/model_inference.py:187-206 | every queued job comes from a start message, and describes the last dispatched instruction with a preset before it |
| `InferenceJobs.JobsCounted` | monitor/subscriber/model_inference.py:187-206 | no job is queued before the first description, and after it exactly one for every start message |
| `InferenceJobs.SameOrigin` | monitor/subscriber/model_inference.py:187-206 | two jobs come from the same instruction if and only if no instruction with a preset was dispatched between the messages that queued them |
| `InferenceJobs.JobsNameStackerDirectories` | monitor/subscriber/model_inference.py:189-206 | for every job of every run: when it is queued, all directories the stacker files into are those of the last dispatched instruction; the job names that directory if and only if its description has that instruction's date and filed standard, so, if that instruction had a preset, if and only if its standard is not empty |
| `InferenceJobs.PassEndsWithJob` | monitor/subscriber/model_inference.py:187-206 | the message that ends a pass queues a job, if there is a description, and no event of the pass before it does |
| `InferenceJobs.PassAndItsJob` | components/general.file.stacker/general.file.stacker.cc:105-121 | for every pass of every run: the message that ends it queues the job; by then every frame of the pass is on disk under each active directory, after the frames since the last complete instruction; all these directories are those of the last dispatched instruction; the job names that directory if and only if its description has that instruction's date and filed standard |
| `InferenceJobs.StaleJob` | monitor/surface_defect_monitor/window.py:706-723 | after an instruction without a preset the next job reads the directory of the instruction before it |
| `InferenceJobs.SameDirectory` | components/general.file.stacker/general.file.stacker.cc:221-232 | for one instruction, subscriber and stacker build the same relative directory if and only if the normalised standard is not empty |
| `InferenceJobs.RepeatedStartQueuesAgain` | monitor/subscriber/model_inference.py:187-206 | two different published start messages queue the same job twice |
| `InferenceJobs.JobsNeedChanges` | components/ni.daq.controller/ni.daq.controller.cc:199-215 | for every sequence of samples: publishing every one would queue exactly one job more for each starting sample that repeats the one before; the queues agree if and only if there is no description or no such sample |
| `InferenceJobs.CopyReadsStackerDirectory` | monitor/subscriber/model_inference.py:331-352 | the copy of the defect images reads the directory the stacker opened if and only if the normalised standard is not empty, whatever the dimensions: the fallback name here has a capital X between width and height |
| `InferenceJobs.PacketToDirectories` | monitor/surface_defect_monitor/window.py:707-723 | for a received instruction packet, stacker and job agree on the directory if and only if the standard in the packet is not blank |
| `InferenceJobs.PacketToJob` | monitor/surface_defect_monitor/window.py:707-723 | from the bytes of an instruction packet to the job's eight fields, sizes in tenths, to the job's directory and to the message the stacker gets |
| `InferenceJobs.InstructionToLabel` | monitor/subscriber/model_inference.py:344-352 | from an instruction packet over filing, scoring, copying and labelling, for every stream, image and label: the job reads the stacker's directory, the defect copy is made from the file the stacker wrote, renamed, and a labelled name leads back to that file if and only if no kept section of the standard has an underscore or a slash |
| `Lens.WordRoundTrip` | components/computar.vlmpz.controller/control_impl.cc:247-262 | two-byte words are split and put together without loss, either way round |
| `Lens.CommandTells` | components/computar.vlmpz.controller/control_impl.cc:253-262 | a command is the register's high and low byte, then the value's, and different ones give different bytes |
| `Lens.ReadingSize` | components/computar.vlmpz.controller/control_impl.cc:229-244 | a read that delivers, delivers 2 to 62 bytes |
| `Lens.ReadingTells` | components/computar.vlmpz.controller/control_impl.cc:211-251 | a read delivers exactly when its three requests go out and the first response has two bytes or a second one comes; the word is the first two bytes, high one first; else the code is that of the first call that fails |
| `Lens.ControlImpl.UsbRead` | components/computar.vlmpz.controller/control_impl.cc:211-246 | the read loop ends after at most two responses and stays inside both buffers; it succeeds exactly when all its calls do; the first two bytes are the word read, and a failure leaves the buffer alone |
| `Lens.ControlImpl.UsbWrite` | components/computar.vlmpz.controller/control_impl.cc:253-262 | one command goes out, the register's address and the value, and the outcome is the transfer's |
| `Lens.ControlImpl.StatusWait` | components/computar.vlmpz.controller/control_impl.cc:352-383 | for every stream of reads: success exactly when all reads used succeed, the bits are first all set within the first 19 reads, and first all clear within the next waitTime - 1; which error it is otherwise, exactly; never more than max(20, 19 + waitTime) reads |
| `Lens.BusyBits` | components/computar.vlmpz.controller/include/ConfigVal.h:14-15 | the wait looks at the third status bit for the focus and at the fourth for the iris |
| `Lens.ControlImpl.DeviceMove` | components/computar.vlmpz.controller/control_impl.cc:418-432 | sends exactly the command asked for; succeeds exactly when write, wait and read-back of the same register do, and then answers where the axis is, else what it was given; otherwise the code is that of the write, 0x50 if the bit never rises, 0x51 if it never falls, or that of the read-back |
| `Lens.ControlImpl.FocusMove` | components/computar.vlmpz.controller/control_impl.cc:409-416 | the command for the focus goes out; success exactly when write, wait under the budget of the move and read-back succeed, so with a lens within its rating whenever no call fails and the busy bit rises in time, and then the error of the wait comes only from a call that returns its code; after a success the cache is the device's register, after any failure it is unchanged; the iris is left alone |
| `Lens.ControlImpl.IrisMove` | components/computar.vlmpz.controller/control_impl.cc:434-441 | the same for the iris |
| `Lens.ControlImpl.FocusInit` | components/computar.vlmpz.controller/control_impl.cc:328-343 | the same for the initialisation of the focus, whatever becomes of the status read at its end |
| `Lens.ControlImpl.IrisInit` | components/computar.vlmpz.controller/control_impl.cc:385-400 | the same for the iris |
| `Lens.ControlImpl.FocusCurrentAddrReadSet` | components/computar.vlmpz.controller/control_impl.cc:297-301 | the cache is set by a failed read too, to whatever was in the buffer |
| `Lens.ControlImpl.IrisCurrentAddrReadSet` | components/computar.vlmpz.controller/control_impl.cc:322-326 | the same for the iris |
| `Lens.ControlImpl.RunOps` | components/computar.vlmpz.controller/control_impl.cc:328-441 | over every sequence of moves and initialisations, one command each goes out in order, and registers and caches are those of the last operation and the last successful operation on the axis |
| `Lens.OnTheWire` | components/computar.vlmpz.controller/include/devAddr.h:35-53 | the four bytes that go out for every move and initialisation of either axis |
| `Lens.CacheAgrees` | components/computar.vlmpz.controller/control_impl.cc:409-441 | cache and register agree whenever the last operation on the axis succeeded |
| `Lens.FailuresKeepCache` | components/computar.vlmpz.controller/control_impl.cc:409-441 | operations that all fail leave the cache as it was |
| `Lens.BudgetSound` | components/computar.vlmpz.controller/control_impl.cc:402-407 | for every 16-bit move and speed of at least 1 the budget and its intermediate product fit 32 bits, and the budget exceeds the rated time by more than one poll |
| `Lens.BudgetExact` | components/computar.vlmpz.controller/control_impl.cc:402-407 | the budget is 1100 times the steps over the speed, rounded down, and at least 2000 |
| `Lens.Lengths` | components/computar.vlmpz.controller/control_impl.cc:409-411 | the length of a move is the distance of its ends, that of an initialisation the span of the axis as an unsigned short |
| `Lens.RatedLensNeverTimesOut` | components/computar.vlmpz.controller/control_impl.cc:369-380 | such a lens is seen clear before the budget runs out |
| `Lens.RatedMove` | components/computar.vlmpz.controller/control_impl.cc:369-421 | with a lens within its rating (later reads that deliver are clear from the rated time on, each poll lasts at least a millisecond) the second loop of a move never runs out of budget, and a move whose calls all succeed and whose busy bit rises within 19 reads completes |
| `EndpointIndex.ConnectionEditor.AnalyzeConnections` | zmq_connection_editor.py:171-220 | the connections built through the dictionary are, as a multiset, those of the comparison of every two sockets, in the order of keys, senders and receivers |
| `EndpointIndex.ConnectionEditor.BuildPortMap` | zmq_connection_editor.py:176-203 | the dictionary holds for every endpoint text exactly its sockets in order, keys in the order of their first socket |
| `EndpointIndex.IndexIsJoin` | zmq_connection_editor.py:205-220 | the index finds every pair as often as the quadratic definition does |
| `EndpointIndex.EachPairOnce` | zmq_connection_editor.py:205-220 | every publisher or pusher and every subscriber or puller with equal endpoint texts are connected exactly once, and nothing else is |
| `EndpointIndex.ConnectionsInOrder` | zmq_connection_editor.py:205-220 | connections come in the order of the first socket of their endpoint, then of the senders, then of the receivers |
| `EndpointIndex.DeclaredExactly` | zmq_connection_editor.py:178-203 | the sockets are exactly the entries of the data port tables that declare a port |
| `EndpointIndex.JsonCutOut` | zmq_connection_editor.py:178-179 | the component is the file name with every .json cut out |
| `EndpointIndex.SmallGroupsHoldNoPair` | zmq_connection_editor.py:206-208 | skipping the groups of fewer than two sockets drops no connection |
| `EndpointIndex.KeyTellsEndpoint` | zmq_connection_editor.py:188-193 | endpoint texts are equal exactly when transport, host and port are, defaults filled in, provided transports and ports have no colon |
| `EndpointIndex.WildcardBindIsMissed` | zmq_connection_editor.py:188-220 | a publisher with host * is connected exactly with the subscribers of the same transport and port whose host is * too, so to none that names the host it connects to |

## Left out

- Image scoring (ONNX, torch, OpenCV, XGBoost, the metrics): of an image's processing only its row and its progress count are modelled, and putting a row is taken not to raise.
- ZMQ, TCP, SSH, DAQmx, Pylon and HidSmbus calls: their outcomes are the environment's; messages are delivered one at a time and whole.
- Partial TCP reads and reassembly: the receiver takes one `recv` for one packet, and so does the model.
- Threads inside the stacker and the lens driver: the program shares directories, counters and the lens without a lock; the model takes one message or operation per step.
- Widgets, plots, logging, CSV and JSON text: messages are records, a file is its lines.
- The stacker's I/O failures after a directory exists, deletion from outside, and the values in `level2.txt` beyond the message: writes succeed and nothing else touches the tree.
- The move of a label file (monitor/surface_defect_monitor/window.py:675-690): only where it looks, with which pattern, and where it leaves the image; names with the wildcard characters of the file pattern are not modelled.
- The renaming of scored images to their `_x` names and the deletion of processed directories: the copy's source path is taken as the program writes it.
- `generate_packet_job_result`, `extract_stand_dim`, `_level2_dispatch_subscribe` and the alarm packet's layout: unused, or straight copies; the first prints its count left-adjusted because the stream's adjustment stays set.
- Preset search, Art-Net and DMX framing, temperature control, system usage, and the second file stacker: single loops or near copies.
- `Level2Client.DoClientWork`: does not model the bound of the queues it pops (`BoundedQueue` does), a 32-bit overflow of 10 x interval, or the use of the socket by the library after the connect callback deleted it.
- `Packets.InstructionRoundTrip`: the value range of `stoi` is not modelled; the fields are too narrow to leave it.
- `Lens.ControlImpl.UsbRead`: a successful response of no byte, on which the source's loop would spin, is excluded by the assumption on the bridge.
- `Lens.BudgetSound`: a speed of 0, a division by zero in the source, is excluded.
- `BoundedQueue.ConcurrentQueue.Push`: one pass of the waiting loop; the sleeping and waking are in the step machine beside it.
- Characters are bytes of the C locale: no Unicode, no case folding beyond A to Z.
