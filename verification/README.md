# Verified models of ekostd

Dafny models of the parts of `ekostd` whose correctness rests on its own Rust code rather than on one system call, with
proofs about them. `dafny verify dfyconfig.toml` checks everything.

| file | models |
|---|---|
| `Channel.dfy` | the bounded channel of `src/channel.rs`: its mutex-protected record, and the protocol of any number of threads on either side |
| `Monitor.dfy` | `Mutex`, `Guard` and `Condvar` of `src/thread.rs` |
| `OnceCell.dfy`, `ThreadKey.dfy`, `ScopedKey.dfy` | `OnceLock` and `LazyLock`, the key race of `ThreadLocal`, and `ScopedKey`, in `src/thread.rs` |
| `Drain.dfy` | `Pipe::take_ready`, `Child::read_ready` and `Child::collect` of `src/command.rs`, and the poll loop of `output` against a child with two bounded pipes |
| `Descriptors.dfy`, `Environment.dfy` | the descriptor table of a spawned child up to its exec, and its environment |
| `PathSyntax.dfy`, `Path.dfy` | `src/path.rs`: what a path's components are, printing and parsing, the backwards scans, the owned path and the iterators |
| `LineSplitting.dfy`, `LineReaders.dfy` | the line readers of `src/file.rs` and `src/socket.rs` |
| `FileTree.dfy`, `RemoveTree.dfy` | `read_dir` and `remove_dir_all` of `src/fs.rs` on a tree with symbolic links |
| `DaemonDescriptors.dfy`, `Daemon.dfy` | `src/daemonize.rs`: its descriptor numbers, and the start protocol for any number of starts sharing a pid file |
| `Wrappers.dfy`, `Counting.dfy`, `ByteStrings.dfy` | `Option` and `Result`, sums over threads, and byte searches |

What many threads or processes do together is a step machine: a state with a program counter for each of them, `Enabled`
and `Apply` for one atomic step, an invariant that every step keeps, and theorems about every state of every run. What
one call does step by step is a class or a method with loops, proved against a specification function that the
theorems are about. The kernel is part of the machines: wakeups may be spurious, reads may be short or interrupted,
processes may die at any step.

## Where the code does less than its comments say

The models follow the code. Each difference below is a theorem.

- `Condvar::notify_one` answers `true` for a thread that has already been woken and has not yet taken the mutex back, so
  `true` does not promise a blocked thread, even under the mutex; `false` under the mutex does mean there is none
  (`NotifyOneAnswers`, `TrueMayFindNobodyBlocked`).
- `Path::components` keeps every `.`, while `parent` and `file_name` skip all but a leading one. The two readings are
  `Components` and `Normal`, and `ReadingsAgree` says when they are the same.
- `starts_with` compares bytes, not components: `a//b` does not start with `a/b`, and a relative path does not start
  with the empty one. `StartsWithExact` says what it does compare. `strip_prefix` takes off one separator, so joining
  the remainder back may not give the path again (`StripThenJoin`). `PrefixesGoAstray` has an input for each.
- `set_extension` looks at the bytes after the last slash. `SetExtensionExact` says for every path and extension when
  that replaces the extension of the final component. `SetExtensionGoesAstray` has inputs where it does not: on `a/` it
  adds the component `.txt`, on `..` it makes `..txt`, and an empty extension turns `..` into `.` and `...` into `..`.
- `socket::Lines` drops the line under way when a read fails; `file::Stdin` does not
  (`FailedReadLosesTheLineUnderWay`).
- `remove_dir_all` does not follow links below its argument, but opens the argument itself through a link: exactly when
  the path names one (`OpensWhatIsNamed`). It then empties the directory behind the link and reports an error
  (`RemoveDirAll`, `RemoveThroughSmallLink`).
- `daemonize` redirects 0, 1 and 2 over whatever stands there, and in a process that had one of them closed that can be
  the locked pid file or the readiness pipe. `KeptExactly` says which closed descriptors cost what: both survive
  exactly when all three were open. Otherwise a second daemon may run beside the first (`RunningDaemonOwnsPidFile`,
  `TwoDaemonsRun`), or a launcher may report the failure of a daemon that serves (`ExitCodeIsTheTruth`,
  `ServingDaemonReportedFailed`).
- A process to which `daemonize` returns an error, the session's first child or the daemon, has no `Ready` to drop. Its
  launcher stays blocked until that process ends, which its caller decides (`LaunchersWaitOnlyForSomebody`,
  `RefusalAloneReleasesNobody`, `FailedDaemonKeepsItsLauncherWaiting`).

## Model

| member | source | states |
|---|---|---|
| ChannelState.State.TrySend | src/channel.rs:91-102 | one turn of `send` under the mutex: refused exactly without a receiver, queued at the back exactly when there is one and room, otherwise to wait; nothing else changes |
| ChannelState.State.TryRecv | src/channel.rs:135-143 | one turn of `recv`: the front item exactly when there is one, otherwise disconnection exactly without senders |
| Channel.StepKeepsLock | src/channel.rs:88-117 | at most one thread is inside a critical section, through every wait, unlock and wake |
| Channel.StepKeepsHandles | src/channel.rs:76-117 | `senders` always equals the live handles plus the drops that have not taken effect |
| Channel.SendersNeverUnderflow | src/channel.rs:109 | whoever decrements `senders` finds it positive, in every reachable state |
| Channel.StepKeepsReceiver | src/channel.rs:162-169 | the receiver counts as live until its one drop takes effect |
| Channel.StepKeepsQueue | src/channel.rs:91-99 | accepted values are the delivered ones followed by the queue, and the queue never exceeds the capacity |
| Channel.StepKeepsValues | src/channel.rs:88-102 | each value passed to `send` is accepted once, handed back once in `SendError`, or still in its call, counted with multiplicity |
| Channel.StepKeepsSenderWake | src/channel.rs:88-104 | no lost wakeup for senders: while one sleeps and the receiver lives, free slots are covered by owed notifications and woken senders that have not rechecked; with the receiver gone a broadcast is owed |
| Channel.StepKeepsReceiverWake | src/channel.rs:132-145 | no lost wakeup for receiving threads: while one sleeps, queued items are covered by owed notifications and woken receivers that have not rechecked, and with the last sender gone its broadcast is owed |
| Channel.StepKeepsInv | src/channel.rs:76-169 | every step of any thread, spurious wakes included, keeps all of the above together |
| Channel.RunKeepsInv | src/channel.rs:49-169 | so every state of every run from a new channel satisfies them |
| Channel.SendOutcome | src/channel.rs:91-101 | a `send` is refused exactly when the receiver is gone and sleeps exactly when it lives and the queue is full |
| Channel.RefusedOnlyWithoutReceiver | src/channel.rs:84-93 | in every run a value is handed back in `SendError` only without a receiver |
| Channel.RecvOutcome | src/channel.rs:132-145 | a `recv` delivers the front item exactly when there is one, fails exactly on an empty queue without senders, and sleeps otherwise |
| Channel.TryRecvOutcome | src/channel.rs:151-159 | a `try_recv` delivers the front item when there is one and answers `None` exactly on an empty queue |
| Channel.RecvFailsOnlyWhenDrained | src/channel.rs:129-142 | `recv` reports disconnection exactly when no handle is left, no drop is pending and everything accepted was delivered |
| Channel.DrainedEverAfter | src/channel.rs:129-145 | from then on, at every later state of the run, nothing is accepted or delivered and every `recv` fails |
| Channel.FrozenEverAfter | src/channel.rs:91-93 | once the receiver is dropped, at every later state the queue is the one it left and nothing is accepted or delivered |
| Channel.HistoriesGrow | src/channel.rs:95-138 | over a run the accepted and delivered histories only grow and stay FIFO |
| Channel.Progress | src/channel.rs:88-169 | unless every thread is outside a call or asleep, some thread can take a step |
| Channel.InternalStepsRunOut | src/channel.rs:88-169 | without new calls and spurious wakes every step lowers one measure, so calls under way cannot run for ever |
| Channel.NoDeadlock | src/channel.rs:88-169 | at rest a sleeping sender faces a full queue and a live receiver, a sleeping receiving thread an empty queue and a live handle; with capacity at least one the two sides never sleep together |
| Channel.StuckRunsAreAtRest | src/channel.rs:88-169 | under any scheduling, a run that cannot go on has come to such a rest |
| Monitor.StepKeepsOwner | src/thread.rs:124-142 | each guard in existence belongs to the one owner, including between the guard `wait` forgets and the one it builds |
| Monitor.MutualExclusion | src/thread.rs:192-196 | two threads never hold the mutex at once |
| Monitor.StepKeepsCount | src/thread.rs:379-390 | `waiters` equals the threads inside `wait`, blocked or not |
| Monitor.StepKeepsInv | src/thread.rs:379-409 | every lock, wait, wake and notification keeps ownership, the count, and what a notifier under the mutex has read |
| Monitor.RunKeepsInv | src/thread.rs:124-409 | in every state of every run |
| Monitor.CountUnderMutex | src/thread.rs:384-388 | to a thread that holds the mutex the count is the blocked threads plus those woken but not yet back |
| Monitor.NotifyOneUnderMutex | src/thread.rs:398-402 | under the mutex the count read is positive exactly when a thread is blocked or on its way back |
| Monitor.NotifyAllUnderMutex | src/thread.rs:405-409 | under the mutex the count read is at least the number of threads blocked |
| Monitor.NotifyOneAnswers | src/thread.rs:384-402 | what `notify_one` answers: under the mutex `true` exactly when a thread is blocked or on its way back, so `false` means nobody is blocked; and a blocked thread wakes if there is one |
| Monitor.NotifyAllAnswers | src/thread.rs:404-409 | what `notify_all` answers: under the mutex at least the number of threads it wakes; and all that are blocked wake |
| Monitor.AnswersAreTheCountRead | src/thread.rs:392-409 | with or without the mutex, the answers are what the count was when it was read |
| Monitor.AnswersStay | src/thread.rs:398-409 | no step of another thread changes an answer given |
| Monitor.TryLockAnswers | src/thread.rs:124-130 | `try_lock` takes the mutex exactly when it is free and changes nothing otherwise |
| Monitor.TrueMayFindNobodyBlocked | src/thread.rs:392-402 | a run in which `true` is answered under the mutex with nobody blocked |
| OnceCell.StepKeepsInv | src/thread.rs:461-518 | a busy cell has exactly one owner, at most one value was ever stored, every finished read has that value, and no `expect` has fired |
| OnceCell.RunKeepsInv | src/thread.rs:461-572 | in every run mixing `get`, `set`, `get_or_init`, or `force` on a lazy cell |
| OnceCell.StateMovesForward | src/thread.rs:478-489 | the state moves only from empty to busy to ready, the second time by the thread that moved it the first |
| OnceCell.ReadyIsForever | src/thread.rs:466-468 | a ready cell never changes |
| OnceCell.AllResultsAgree | src/thread.rs:473-499 | any two results, at any two times of a run, are the one value stored |
| OnceCell.NoneOnlyFromUnready | src/thread.rs:461-465 | a `get` answers `None` only when the cell it looked at was not ready |
| OnceCell.GetAfterReady | src/thread.rs:460-469 | in any run, once the cell is ready no `get` comes to answer `None`, and each one that answers gives the value stored |
| OnceCell.OwnerWritesItsValue | src/thread.rs:485-488 | what is stored is what the initialiser made or `set` was given |
| OnceCell.WinnerAnswersOk | src/thread.rs:511-515 | in any run, a `set` that has won answers `Ok`, with its own value stored |
| OnceCell.OneWinner | src/thread.rs:473-491 | at most one compare-exchange of a whole run wins, so at most one thread ever runs the initialiser or writes |
| OnceCell.SomebodyWon | src/thread.rs:478-484 | a cell that is not empty was won by some earlier step |
| OnceCell.RefusedSet | src/thread.rs:503-517 | in a run, a `set` wins exactly when nobody has before; otherwise it hands its own value back and stores nothing |
| OnceCell.OwnerMakesProgress | src/thread.rs:493-496 | a spinning thread waits for an owner that is itself not spinning; every other step brings its call nearer its end |
| ThreadKey.StepKeepsInv | src/thread.rs:291-318 | every key the race has allocated is the published one or held by exactly one thread that has yet to publish or delete it |
| ThreadKey.RunKeepsInv | src/thread.rs:291-318 | in every run, with keys created and deleted elsewhere in the process meanwhile |
| ThreadKey.AllCallsAgree | src/thread.rs:297-316 | all successful calls of a run return the same key, key zero included |
| ThreadKey.NoneOnlyFromFailedCreation | src/thread.rs:297-317 | a call answers `None` exactly when no key could be created; one that finds a key, or loses and has deleted its own, answers the published one |
| ThreadKey.ReturnedKeyIsNeverDeleted | src/thread.rs:312-315 | a key that was returned stays allocated |
| ThreadKey.NothingLeaks | src/thread.rs:313-315 | when no call is under way exactly the published key is left, or none |
| ScopedKey.Key.Set | src/thread.rs:1041-1056 | however the body ends, the slot is as it was, and the body sees the value installed |
| ScopedKey.Key.With | src/thread.rs:1063-1069 | the innermost value whose `set` is active is seen, and without one the call unwinds |
| ScopedKey.Key.IsSet | src/thread.rs:1072-1074 | true exactly when some `set` is active |
| ScopedKey.Key.Run | src/thread.rs:1041-1074 | every nesting of set, with, unwind and catch leaves the slot as it was and observes what a reading without any slot says |
| ScopedKey.InnermostIsSeen | src/thread.rs:1041-1074 | by name: `with` sees the value of the innermost `set`, the outer one again after a nested `set` has returned or unwound, and panics without any; `is_set` answers accordingly |
| ScopedKey.UnwindPasses | src/thread.rs:1033-1056 | an unwind passes through `set` and `with` and skips what comes next, up to a catch |
| ScopedKey.OnlyActiveValuesAreSeen | src/thread.rs:1063-1069 | nothing is seen but values active outside the program or installed in it |
| ScopedKey.EndedSetIsSeenNoMore | src/thread.rs:1033-1040 | what comes after a program sees no value whose `set` ended in it, by returning or by a caught unwind: no dangling pointer |
| PipeReader.Pipe.TakeReady | src/command.rs:95-117 | where reads that bring data or are interrupted are followed by one that ends the round, exactly their data is kept in order, the round ends there, and the pipe is done exactly unless that one only had nothing yet |
| PipeReader.SignalsAddNothing | src/command.rs:107-110 | an interruption in the middle of a round changes nothing that is kept |
| PipeReader.Child.ReadReady | src/command.rs:339-396 | one round of `poll` reads exactly the unfinished pipes that were reported, whichever slots they stood in, and never a finished one |
| PipeReader.Child.Collect | src/command.rs:418-444 | the first answer of `waitpid` that is not an interruption decides, is kept, and is repeated ever after |
| Drain.StepKeepsInv | src/command.rs:339-396 | for both streams, got plus in the pipe is what was written, and a finished pipe is closed and empty |
| Drain.RunKeepsInv | src/command.rs:291-298 | in every interleaving of parent and child, with interruptions |
| Drain.StepKeepsWhole | src/command.rs:95-117 | the stream so far and the stream to come add up to the same stream at every step, short writes included |
| Drain.NeverBothBlocked | src/command.rs:337-338 | while the parent is blocked in `poll` the pipe a child writes to is entirely free |
| Drain.Progress | src/command.rs:291-298 | until `output` is over, parent or child can take a step |
| Drain.InternalStepsRunOut | src/command.rs:293-296 | interruptions apart, every step lowers one measure |
| Drain.RunKeepsWhole | src/command.rs:95-117 | at every state of every run what was collected of a stream is a prefix of all that the child will write to it |
| Drain.InternalRunsEnd | src/command.rs:293-296 | between interruptions a run is bounded by that measure |
| Drain.OutputIsComplete | src/command.rs:291-298 | in every run, interruptions included, where nothing but an interruption can happen `output` is over with both streams complete |
| Descriptors.AboveStdio | src/command.rs:495-500 | a close-on-exec copy above 2, or the descriptor itself, and nothing else disturbed |
| Descriptors.FourFillStdio | src/command.rs:203-204 | four allocations fill every hole among 0, 1 and 2, whatever was open |
| Descriptors.ChildSetup | src/command.rs:238-271 | from any table with the two write ends anywhere, the exec finds null, stdout's and stderr's pipe at 0, 1, 2 and what else was inheritable |
| Descriptors.NoOtherPipeEndSurvives | src/command.rs:265-268 | in the program that starts each write end is open once, no read end is, and nothing is close-on-exec |
| Descriptors.WhatTheProgramFinds | src/command.rs:238-271 | the program finds null and the two pipes at 0, 1 and 2, and above them exactly what was open without close-on-exec |
| Descriptors.Spawn | src/command.rs:202-282 | for every initial table: on failure the parent's is unchanged, on success it gained the two read ends and the child runs with the table expected |
| Environment.Command.Env | src/command.rs:190-196 | appends the name, `=` and the value to the overrides |
| Environment.Command.Environment | src/command.rs:300-310 | the loop of `retain` and `push` computes the overridden list |
| Environment.KeyOfEntry | src/command.rs:303-305 | the key of an override is its `=`-free name with the `=` |
| Environment.EntryIsKeyAndValue | src/command.rs:190-194 | an override is its key and then its value, byte for byte |
| Environment.KeysAreDisjoint | src/command.rs:303 | two different keys never match one entry, so one name cannot match a longer one |
| Environment.OverridesWin | src/command.rs:300-308 | an overridden key has exactly one entry, the last one pushed; every other key keeps its entries |
| Environment.LastCallWins | src/command.rs:185-196 | after any sequence of `env` calls with `=`-free names each name set has one entry, with the last value given, and every other name keeps what it inherited |
| Environment.InheritedKeepTheirOrder | src/command.rs:300-308 | inherited entries that no override names come first, unchanged and in order |
| PathSyntax.PartsConcat | src/path.rs:433-440 | a slash is exactly a boundary between parts, so parts of two halves concatenate |
| PathSyntax.ReadingsAgree | src/path.rs:94-98 | the forward iterator and `parent` read a path alike exactly when it has no `.` but a leading one |
| PathSyntax.JoinComponents | src/path.rs:522-533 | joining concatenates component lists, and an absolute right side replaces the left |
| PathSyntax.CollectThenParse | src/path.rs:574-582 | collecting a component list and parsing it gives it back exactly when the list is well formed |
| PathSyntax.ParsePrintParse | src/path.rs:427-447 | for every byte string, parsing what collecting its components gives yields the same components |
| PathSyntax.StartsWithExact | src/path.rs:183-188 | `starts_with` holds exactly for byte prefixes that are component prefixes, the empty prefix of a non-empty relative path excepted |
| PathSyntax.StrippedComponents | src/path.rs:195-202 | what `strip_prefix` leaves has exactly the parts the prefix has not; an empty prefix takes a leading root off |
| PathSyntax.StripThenJoin | src/path.rs:195-202 | when joining prefix and remainder reads as the path again, as a condition on path and prefix |
| PathSyntax.PrefixesGoAstray | src/path.rs:182-202 | inputs on which matching components or the empty prefix are refused, and on which stripping and joining gives another path |
| Path.TrimBackByScanning | src/path.rs:111-133 | the scanning loop computes the trimmed end |
| Path.TrimBackKeepsNames | src/path.rs:109-133 | trimming loses no name and stops right after one or at the floor |
| Path.LastBodyComponentSplits | src/path.rs:135-147 | the byte range found is the last name of the body, and there is none exactly when the body has no name |
| Path.ParentDropsLast | src/path.rs:77-92 | `parent` is a strictly shorter byte prefix with all normal components but the last, `None` exactly for the empty path and a root |
| Path.ParentIsShortest | src/path.rs:83-88 | no shorter prefix has those components, so trailing separators and dots are gone |
| Path.FileNameIsLast | src/path.rs:62-75 | `file_name` is the last normal component when that is a name |
| Path.ParentIsShallower | src/path.rs:79-91 | `parent` is `None` exactly when nothing but a root is left, and otherwise has one component fewer |
| Path.AncestorCount | src/path.rs:473-480 | the walk up has one item more than there are components to drop |
| Path.AncestorDrops | src/path.rs:473-480 | the k-th ancestor is a byte prefix, shorter than the one before, with the last k components gone |
| Path.RenamedPath | src/path.rs:548-557 | whatever is given replaces a final name and is appended to anything else, an absolute path replaces all, and a plain name is then the file name |
| Path.SetExtensionExact | src/path.rs:559-571 | for every path and extension, when `set_extension` replaces the extension of the final component, or without a final name leaves the path alone |
| Path.SetExtensionGoesAstray | src/path.rs:559-571 | four inputs on which it does not |
| Path.ExtensionReadBack | src/path.rs:149-161 | a plain extension set on a path that ends in its file name is the one `extension` answers |
| Path.NoDotNoExtension | src/path.rs:149-161 | on bytes: a name without a dot after its first byte has no extension, and one that is set is appended to the whole path |
| Path.LastDotBeginsExtension | src/path.rs:154-161 | on bytes: what follows the last dot of a name is its extension, and setting another replaces exactly that |
| Path.HiddenFile | src/path.rs:151-152 | a dot file has no extension and keeps its name when given one |
| Path.PathBuf.Push | src/path.rs:522-533 | leaves the join of buffer and argument |
| Path.PathBuf.Pop | src/path.rs:535-546 | leaves the parent, and answers `false` unchanged exactly when there is nothing to drop; the depth falls by one, which ends a loop of pops |
| Path.PathBuf.SetFileName | src/path.rs:552-557 | leaves the renamed path |
| Path.PathBuf.SetExtension | src/path.rs:560-571 | edits the buffer into the path with the extension |
| Path.PathBuf.FromComponents | src/path.rs:574-582 | leaves the components printed one after another |
| Path.ComponentsIter.Next | src/path.rs:427-447 | yields the component list one by one and `None` only at its end |
| Path.AncestorsIter.Next | src/path.rs:473-480 | yields the list of ancestors one by one |
| LineSplitting.SplitOfTerminated | src/socket.rs:248-252 | splitting undoes terminating lines with newlines |
| LineSplitting.TerminatedOfSplit | src/socket.rs:250-252 | no line holds a newline and the lines make up the stream, a missing last newline apart |
| LineReaders.Stdin.ReadLine | src/file.rs:772-808 | the next line of what is left; a failed read is reported and loses nothing; after the last line end of file sticks and the descriptor is not read again |
| LineReaders.Connection.Read | src/socket.rs:216-228 | the first answer that is not an interruption, with the bytes in front of the buffer |
| LineReaders.SettlingIsInvisible | src/socket.rs:219-223 | retried interruptions change neither the stream nor the failure ahead |
| LineReaders.SettledSkipsOnlySignals | src/socket.rs:219-223 | a retry skips interruptions and nothing else |
| LineReaders.ScriptSays | src/file.rs:794-806 | what arrives before the first failure or the end is exactly the data read, whatever interruptions fall in between |
| LineReaders.SocketLines.NextLine | src/socket.rs:253-276 | the next line of what is left; a failed read is reported and loses exactly the line under way |
| LineReaders.AllStdinLines | src/file.rs:770-808 | repeated calls yield the stream split at newlines however it was cut up, failed reads being retried |
| LineReaders.AllSocketLines | src/socket.rs:248-276 | the same for the socket reader when no read fails, so the two readers agree |
| LineReaders.AllSocketLinesRetrying | src/socket.rs:253-276 | asked again after failed reads, the socket reader yields the lines of the bytes that survive when each failure costs the line under way |
| LineReaders.RetryingLosesLinesUnderWay | src/socket.rs:262-266 | those are the lines of the whole stream exactly when every failed read falls where no line is under way |
| LineReaders.FailedReadLosesTheLineUnderWay | src/socket.rs:262-266 | after one failed read the lines are still those of the stream exactly when nothing of a line had been taken |
| LineReaders.SocketReaderLosesBytes | src/socket.rs:266 | three bytes in which one line goes in and another comes out |
| FileTree.WalkInSubtree | src/fs.rs:129-141 | removing names never makes a path lead elsewhere |
| FileTree.WalkName | src/fs.rs:96 | a listed child's path leads to that name in the directory listed, its own link not followed |
| RemoveTree.FileSystem.ReadDir | src/fs.rs:71-98 | each name in the directory once, as a joined path, without the dot names; on failure nothing |
| FileTree.SteadyWalk | src/fs.rs:131-141 | a path that passes nothing strictly under the directory leads to the same place however much of it is gone |
| FileTree.SpelledPathResolves | src/fs.rs:71-73 | a path of plain names, absolute or from the working directory, leads to the directory it spells and is such a path |
| RemoveTree.FileSystem.RemoveDirAll | src/fs.rs:129-142 | ends on every tree, and at the first error, after which nothing is removed; only names at and under the directory opened can go, and on success exactly those are gone, link targets elsewhere untouched; fails when the path names a link; with no call failing by itself and a path that the deletion cannot disturb, succeeds exactly when the path names the directory itself and ends in a name, and otherwise still empties it |
| RemoveTree.OpensWhatIsNamed | src/fs.rs:71-73 | for every path that names something, the directory opened is the one named exactly when that is not a link |
| RemoveTree.TopLinkIsFollowed | src/fs.rs:124-131 | a plain path to a link that leads in plain names to a directory not above it opens that directory, and cannot be disturbed by deleting there |
| RemoveTree.FileSystem.RemoveThroughLink | src/fs.rs:124-131 | deleting by such a path fails and leaves the directory in place with nothing under it |
| RemoveTree.RemoveThroughSmallLink | src/fs.rs:124-131 | a tree of four names on which it does |
| DaemonDescriptors.RedirectStandardStreams | src/daemonize.rs:251-261 | leaves the null device at 0, 1 and 2 and everything else as it was, wherever its own descriptor came to stand |
| DaemonDescriptors.Daemonize | src/daemonize.rs:151-195 | for every table, where the pipe and the pid file stand, and that each survives exactly when that is above 2 |
| DaemonDescriptors.KeptExactly | src/daemonize.rs:246-261 | how many of 0, 1 and 2 may be closed for the write end and for the lock to survive, in either order of the pipe; both do exactly when none is |
| DaemonDescriptors.ClosedStandardInputCostsTheLock | src/daemonize.rs:152-192 | with 0 closed the pid file stands at 0, with 0 and 1 closed the write end stands at 1 as well |
| Daemon.StepKeepsStart | src/daemonize.rs:151-195 | how far each process of a start is says what its descriptors, lock, byte and exit code are, whatever was open at the start |
| Daemon.FailureEndsTheStart | src/daemonize.rs:151-195 | a call that fails ends the start-up in the process that made it, and only a complete redirection completes one |
| Daemon.ReadyIsClosed | src/daemonize.rs:61-76 | signalling and dropping `Ready` both close the write end |
| Daemon.StepKeepsLock | src/daemonize.rs:207-210 | the processes of one start at most hold the lock |
| Daemon.StepKeepsFile | src/daemonize.rs:211-219 | while the lock is held the file is empty after truncation and names the holder's daemon once written |
| Daemon.RunKeepsInv | src/daemonize.rs:151-227 | in every interleaving of any number of starts, with any process dying at any step |
| Daemon.ExitCodeIsTheTruth | src/daemonize.rs:159-195 | an exited launcher's code is 0 exactly when its daemon called `signal` and the write end was out of the redirection's way, now and at any later time, and 1 otherwise |
| Daemon.CodeStepsRunOut | src/daemonize.rs:151-195 | every step of the start-up code lowers one measure |
| Daemon.LaunchersWaitOnlyForSomebody | src/daemonize.rs:25-32 | when the code of a start can do no more its launcher has exited, with the code that the byte in the pipe decides, exactly when that byte was written or nobody is left with a write end, and is otherwise blocked |
| Daemon.NobodyLeftMeansAnAnswer | src/daemonize.rs:160-166 | with every descendant dead, `read` returns and the exit code is right |
| Daemon.RefusalAloneReleasesNobody | src/daemonize.rs:174-194 | after a failure inside `daemonize`, in the first child or in a daemon that still has its write end, nothing but the end of that process releases the launcher |
| Daemon.FailedDaemonKeepsItsLauncherWaiting | src/daemonize.rs:183 | a run that gets there |
| Daemon.ServingDaemonReportedFailed | src/daemonize.rs:164-166 | a run in which a launcher exits 1 and its daemon, with 0 and 1 closed at the start, serves |
| Daemon.TwoDaemonsRun | src/daemonize.rs:221-225 | a run in which a daemon started with 0 closed and a second one on the same pid file both run |
| Daemon.OnlyTheHolderWrites | src/daemonize.rs:207-219 | the file changes only under the lock, by the only start that holds it |
| Daemon.RunningDaemonOwnsPidFile | src/daemonize.rs:188-225 | a running daemon holds the lock exactly when the redirection spared its pid file, as a count of closed descriptors; then the file holds its pid and no other start shares the lock |
| Daemon.LockAnswersWhoIsAlive | src/daemonize.rs:199-210 | a start is refused, without touching the file, exactly while a process of another start still shares the lock, whatever a dead daemon left behind |
| Daemon.PidStaysWhileHeld | src/daemonize.rs:221-225 | from the pid being written for as long as a process shares the lock, the file holds it |

## Left out

- The waits of `send`, `recv`, `Condvar::wait`, `OnceLock`, `ThreadLocal::key` and `daemonize` are steps of machines on values, not methods that block; memory order weaker than sequential consistency is not modelled.
- Channel.NoDeadlock: for capacity zero it does not say that the two are never asleep together, because then `send` can only wait or fail.
- OnceCell.RunKeepsInv: initialisers that unwind or call back into the same cell are not modelled; the source excludes the second.
- ScopedKey.Key.Run: one thread's slot; the thread-local storage under it is not modelled.
- Drain.OutputIsComplete: errors of `poll` and `read` other than interruptions are left to PipeReader.Child.ReadReady and PipeReader.Pipe.TakeReady; a child that is killed is one whose program ends there; timeouts are those of the caller.
- Descriptors.ChildSetup: the paths to `_exit(127)`, other threads opening descriptors meanwhile, and systems without `pipe2`.
- Environment.LastCallWins: names that hold a `=` themselves, which the source does not look for; their entries are keyed by what stands before the first `=`.
- The path argument's terminating NUL, names cut at a NUL, and UTF-8 decoding: all strings are bytes.
- The model's `Component` has no prefix variant, and `Components::as_path`, `parts` and `with_extension` are not modelled.
- LineReaders.SocketLines.NextLine: a connection at end of stream stays there, as a stream socket does; a terminal that reports end of file more than once is modelled for standard input only.
- RemoveTree.FileSystem.RemoveDirAll: nobody else changes the tree meanwhile, and a trailing slash after a link is not treated specially when its own name is looked up.
- `create_dir_all`, `copy` and the rest of `src/fs.rs`.
- Daemon.RunKeepsInv: whether a daemon that signals a dead launcher survives is not decided, because the source never sets what the signal for a pipe without a reader does; both outcomes are steps. Not modelled are interrupted or failing reads of the readiness pipe, short writes of the pid, `flock` failing for a reason other than the lock, and processes forked by anything but the daemon.
- `Once`, whose function travels through a process-wide variable outside `pthread_once`; `RwLock`, thread spawning and joining, scoped threads.
- Single-call wrappers, signals, clocks, memory mapping, heap, math, formatting and printing: one system call or a few bit tests each.
