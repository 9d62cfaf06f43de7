# Verification of the BMC application's core algorithms

A Dafny model of the four parts of the application that hold real algorithms
or state machines, with proofs about all inputs and all runs:

1. **The thread dependency manager** (`app/src/thread_dependency_mgr.cpp`): a
   registry of at most 64 descriptors and a recursive starter with one shared
   call stack of 32 names.
2. **The PECI/RAPL sensor driver** (`app/src/intel_peci.c`): wrapping energy
   counters, staged fixed-point division, cached units, and the last good value
   of every rail.
3. **The shell workers** (`app/src/i2c_tools_shell.c`,
   `app/src/busctl_shell.c`): any number of producers, one worker, a queue of
   depth one, and heap blocks that change hands.
4. **The directory algorithms** (`app/src/config_fs.c`): the recursive delete
   and the creation of a directory with all its parents.

`dafny verify dfyconfig.toml` checks the whole project.

## How it is laid out

| file | content |
|---|---|
| `Common.dfy` | `Option` |
| `ThreadGraph.dfy` | the graph of threads, the least set that can be brought up, dependency chains |
| `Starter.dfy` | what a start does, as a function; frame and invariant of every start |
| `StarterExact.dfy` | exactly when a start succeeds |
| `StarterRuns.dfy` | initialisation order, amount of work, completeness of start-up |
| `StarterOutcome.dfy` | the failure count, and what goes wrong beyond 32 names |
| `StarterConfluence.dfy` | the state of every single thread after start-up |
| `StarterSystem.dfy` | all sequences of registrations and starts from an empty registry |
| `RegistrationOrder.dfy` | the same registrations in another order |
| `DeepChain.dfy` | a chain of threads registered in two orders |
| `ThreadManager.dfy` | the descriptors, the registry array and the call stack, updated in place; every method proved against the functions above |
| `PowerArithmetic.dfy` | the power arithmetic |
| `PeciDecode.dfy` | the replies and their bit fields |
| `PeciSampling.dfy` | one fetch as a function, and runs of fetches |
| `PeciDriver.dfy` | the driver's data updated in place, proved against that function |
| `ShellWorker.dfy` | the hand-off as a state machine over interleaved steps |
| `ShellHistory.dfy` | what a tool is given and a caller is told, in terms of the actions of the run |
| `FileTree.dfy`, `Volume.dfy` | a file tree with directory slots, and the file system calls on it |
| `RecursiveDelete.dfy`, `DirectoryCreation.dfy` | the two algorithms on it |

## What stands for the outside world

- A thread's `init_func` and its ready semaphore are two fixed facts about the
  thread: the value `init_func` returns, and whether the semaphore is given
  before the time-out. `init_func` does not call the manager.
- One caller at a time uses the manager (`app/src/main.cpp:476`). A recursive
  start, which shares the call stack, is part of the model.
- Each PECI transfer yields an arbitrary reply or error, and the clock an
  arbitrary time.
- Each file system call may fail of itself, with any negative code but
  `-EEXIST`; a function from call numbers to faults says which ones do. A
  volume has a fixed number of directory handles. "A device that does not
  fail" below means that this function is 0 throughout.
- `malloc` and `strdup` return an arbitrary free block or nothing.

## Where the code and its own text disagree

The model follows the code.

- Nothing in the source says that start-up depends on the order of registration.
  It does not as long as no dependency chain without repeated names from a thread
  asked for has more than 32 names (`RegistrationOrderIrrelevant`). With longer
  chains it may: a chain registered from the bottom up always starts, and from the
  top down it does if and only if it has at most 32 threads (`OrderMattersIff`).
  Start-up returns 0 for every order of the same registrations if and only if each
  auto-start thread is startable and its way down from an idle system fits 32
  names (`EveryOrderSucceedsIff`). `StartSucceedsIff` and `ZeroFailuresIff` are the
  exact conditions for one start and for one order.
- Of two descriptors with the same name only the first is ever found. The
  second keeps its own state for good, and `start_all_auto_threads` starts the
  first one in its place.
- The comment at `app/src/thread_dependency_mgr.cpp:290` speaks of 100 seconds
  where the code says 20. The wait it belongs to never blocks
  (`WaitIsImmediate`).
- `app/src/intel_peci.c:489-491` promises that a failed GetTemp0 keeps the
  previous temperature. When the transfer itself fails with `-EAGAIN`, the code
  for the sensor error is taken for it, and temperature 0 is published
  (`FailedReadKeepsTemperatureIff`).
- A GetTemp0 reading that is not negative is shown as a temperature at least
  32256 degrees above Tjmax (`MarginRange`).
- The conversion of watts to `int` is exact if and only if
  1000·ΔE < 2^31·2^EU·dt (`ReadingIsExact`); that holds for every pair of
  counter values if and only if 2^EU·dt ≥ 2000 (`AlwaysFitsIff`).
- The comments at `app/src/i2c_tools_shell.c:142-144` and
  `app/src/busctl_shell.c:104-106` say that a command is refused while the
  worker is busy. It is refused exactly while another one waits in the queue
  (`RefusedIff`): there are runs in which a tool is running and the next command is
  accepted (`BusyWorkerAccepts`), and in which the worker waits and the next command
  is refused (`WaitingWorkerRefuses`).
- `fs_rm_rf` cuts a child's path off at 1023 characters. What it then deletes is
  still inside the directory, but may be another entry than the one read; the
  directory cannot be deleted, and its return code says so (`FsRmRf`).
- A directory whose path has 1022 or 1023 characters is its own child
  (`SelfChildIff`). With a subdirectory in it the recursion does not end: on a
  device that does not fail no depth of calls is enough (`FsRmRf`, last clause). For
  paths of 1022 characters or more this is exact. For shorter ones it is proved that
  the recursion ends if no directory below is of that kind; the other half is not
  stated, since an entry before such a directory may stop the scan.
- A path of 1024 characters or more has its own beginning for every child
  (`LongPathForgetsName`), so that `fs_rm_rf` may delete the one file or empty
  directory there, outside the directory asked for (`Deletes`).
- No call in the program gets that far: the only calls of `fs_rm_rf` from outside
  are commented out (`app/src/config_fs.c:853-859`).
- `mkdir_dir` cuts a path off that does not fit its buffer. When it returns 0, the
  directory asked for exists if and only if it did before, or there was something
  to make and nothing but '/' has been cut off (`SuccessMeansExists`). No call in
  the program gets that far: `write_file` refuses such paths
  (`app/src/config_fs.c:755`), and the other two pass short constants
  (`app/src/config_fs.c:901-902`).
- `mkdir_dir` returns 0 without a call when nothing follows the mount prefix, and
  an existing file counts as an existing directory.

## Model

| member | source | states |
|---|---|---|
| ThreadGraph.StartableIsClosed | app/src/thread_dependency_mgr.cpp:267-325 | a registered thread is startable iff its init_func returns 0, its signal arrives, and all its dependencies are startable |
| ThreadGraph.StartableIsLeast | app/src/thread_dependency_mgr.cpp:267-325 | every set closed under that rule contains all startable threads |
| ThreadGraph.LevelIsChainBound | app/src/thread_dependency_mgr.cpp:51-60 | a startable thread is in level k iff none of its dependency chains has more than k names |
| Starter.StartFrame | app/src/thread_dependency_mgr.cpp:205-334 | a start changes no thread named on the call stack; states only move from INITIAL to READY or FAILED; the log only grows |
| Starter.StartTouches | app/src/thread_dependency_mgr.cpp:270-296 | a start changes only threads that its argument depends on, directly or not |
| Starter.StartKeeps | app/src/thread_dependency_mgr.cpp:205-334 | every start, at any stack, keeps: nobody RUNNING, READY threads healthy on READY dependencies, FAILED ones to blame themselves; 0 means its thread is READY |
| Starter.StartMakesNoneFail | app/src/thread_dependency_mgr.cpp:275-280 | a start that returns 0 has made no thread FAILED |
| Starter.StoredDeps | app/src/thread_dependency_mgr.cpp:81-96 | the kept dependencies are the longest prefix of valid names, cut at 8 |
| StarterExact.LevelFits | app/src/thread_dependency_mgr.cpp:51-60 | chains of at most 32 names always fit the call stack, whatever is up already |
| StarterExact.FitsMonotone | app/src/thread_dependency_mgr.cpp:250-256 | with more threads up already a way down takes no more room |
| StarterExact.StartBringsUp | app/src/thread_dependency_mgr.cpp:270-325 | a successful start makes exactly its thread and all that it depends on READY, and nothing else |
| StarterExact.StartFits | app/src/thread_dependency_mgr.cpp:229-233 | at any stack below the thread's level, a start succeeds iff the way down fits the rest of the call stack |
| StarterExact.StartSucceedsIff | app/src/thread_dependency_mgr.cpp:205-334 | from any reachable state, on any graph: returns 0 iff the thread is startable and the way down fits 32 names |
| StarterRuns.StartLogs | app/src/thread_dependency_mgr.cpp:298-325 | every start keeps: no init_func or semaphore call is repeated; init_func ran exactly for READY and FAILED threads, after that of all dependencies; a semaphore is taken only right after its own thread's init_func |
| StarterRuns.StartReturnCode | app/src/thread_dependency_mgr.cpp:275-333 | if a thread fails during a start, the code returned is what its init_func returned, or -1 if its signal did not come, and the argument depends on it; if none fails, it is 0 or -1 |
| StarterRuns.StartReturnsCause | app/src/thread_dependency_mgr.cpp:301-325 | the first half of that, for each thread that fails, at any depth of the recursion |
| StarterRuns.WaitMeans | app/src/thread_dependency_mgr.cpp:169-202 | a wait returns 0 iff the thread is READY, or RUNNING and its signal comes or it has no semaphore; it takes the semaphore iff RUNNING, and changes no state |
| StarterRuns.FailuresCounted | app/src/thread_dependency_mgr.cpp:343-361 | for every list of descriptors: the failure count is the number of attempts that return another code than 0 |
| StarterRuns.CycleNeverInitialised | app/src/thread_dependency_mgr.cpp:217-227 | a thread on a dependency cycle is never initialised and stays INITIAL |
| StarterRuns.StartWork | app/src/thread_dependency_mgr.cpp:250-296 | on every graph, one call makes at most 1 + 8·(threads newly READY + free stack slots if it fails) calls |
| StarterRuns.StartAllWork | app/src/thread_dependency_mgr.cpp:343-353 | start-up makes at most n + 8·(threads newly READY + 32·failures) calls |
| StarterRuns.StartAllReachesLeastSet | app/src/thread_dependency_mgr.cpp:337-362 | with chains of at most 32 names, after start-up an auto-start thread is READY iff it is in the least set |
| StarterRuns.StartOrderIrrelevant | app/src/thread_dependency_mgr.cpp:337-362 | hence whether an auto-start thread becomes READY is the same for any two lists of descriptors that both ask for it |
| StarterOutcome.ZeroFailuresIff | app/src/thread_dependency_mgr.cpp:343-361 | on any graph: 0 is returned iff every thread attempted is startable and its way down fits, given what the attempts before it left up |
| StarterOutcome.ZeroFailuresMeans | app/src/thread_dependency_mgr.cpp:343-361 | after a return of 0, a descriptor asked for is READY iff it had not failed before, or, if hidden by another of its name, was READY before |
| StarterOutcome.FailureCountIsMeaningful | app/src/thread_dependency_mgr.cpp:343-361 | distinct names, nothing failed before: 0 implies every auto-start thread READY; with chains of at most 32 names also conversely |
| StarterOutcome.OrderDecides | app/src/thread_dependency_mgr.cpp:229-233 | a startable thread whose way down does not fit, on top of one whose way down does: which comes first decides whether it is brought up |
| RegistrationOrder.EveryOrderSucceedsIff | app/src/thread_dependency_mgr.cpp:337-362 | for every set of registrations under distinct names: start-up returns 0 after every order of them iff each auto-start thread is startable and its way down fits 32 names with nothing up |
| StarterOutcome.StartAllTouches | app/src/thread_dependency_mgr.cpp:343-353 | start-up changes only threads that some descriptor in the list depends on |
| DeepChain.OrderMattersIff | app/src/thread_dependency_mgr.cpp:229-233 | for every chain of 1 to 64 healthy threads: registered bottom up its top becomes READY; registered top down it does iff there are at most 32, and stays INITIAL otherwise |
| StarterConfluence.StartableSucceeds | app/src/thread_dependency_mgr.cpp:205-334 | in the middle of any recursion, a startable thread with room is brought up |
| StarterConfluence.StartCompletes | app/src/thread_dependency_mgr.cpp:270-325 | after a start, everything it had to look at is READY if startable and FAILED if only its own outcome is bad, even when the start itself fails |
| StarterConfluence.ChangeHasTrail | app/src/thread_dependency_mgr.cpp:270-296 | a start changes only threads to which a trail leads on which all earlier dependencies are startable |
| StarterConfluence.StartAllOutcome | app/src/thread_dependency_mgr.cpp:337-362 | when no trail without repeated names from a thread asked for has more than 32: the exact state of every thread after start-up, as a function of the graph and the set of threads asked for |
| StarterConfluence.OrderNeverMatters | app/src/thread_dependency_mgr.cpp:337-362 | hence, under that condition, any two lists of the same descriptors leave every thread, auto-start or not, in the same state |
| StarterConfluence.ShortChainsHaveRoom | app/src/thread_dependency_mgr.cpp:25 | the condition of the two above holds when no chain without repeated names has more than 32 |
| StarterSystem.RegisterKeeps | app/src/thread_dependency_mgr.cpp:70-119 | a registration keeps all invariants, every earlier lookup, and every settled state |
| StarterSystem.ApplyKeeps | app/src/thread_dependency_mgr.cpp:70-362 | so does every operation |
| StarterSystem.EveryRunIsSound | app/src/thread_dependency_mgr.cpp:70-362 | from an empty registry every sequence of registrations and starts satisfies all invariants |
| StarterSystem.BlameIsAccurate | app/src/thread_dependency_mgr.cpp:217-325 | in every reachable state a thread with a dependency that is not READY is INITIAL, and FAILED means all dependencies READY and its own outcome bad |
| StarterSystem.ReadyForever | app/src/thread_dependency_mgr.cpp:141-166 | once a start has returned 0, its thread is READY and check_thread_dependencies true for it after any later operations |
| StarterSystem.CheckMeansStarted | app/src/thread_dependency_mgr.cpp:141-166 | in every reachable state check_thread_dependencies is true iff the thread is registered and each dependency has been initialised with success |
| StarterSystem.WaitIsImmediate | app/src/thread_dependency_mgr.cpp:169-202 | in every world that satisfies the invariant, at any depth of the recursion, after a dependency's start has returned 0 wait_for_dependency_ready returns 0 and takes no semaphore |
| RegistrationOrder.RegistrationOrderIrrelevant | app/src/thread_dependency_mgr.cpp:70-362 | when no trail without repeated names from a thread asked for has more than 32: any two orders of the same registrations under distinct names, followed by start-up, leave every thread in the same state, the one the graph determines |
| ThreadManager.Descriptor.StoreDependencies | app/src/thread_dependency_mgr.cpp:77-96 | the descriptor then keeps the names offered, from the first on, until there are no more of the given count, one is missing or empty, or eight are kept |
| ThreadManager.Manager.FindThreadDescriptor | app/src/thread_dependency_mgr.cpp:122-138 | returns the first descriptor registered under the name, or null if there is none |
| ThreadManager.Manager.IsCircularDependency | app/src/thread_dependency_mgr.cpp:41-49 | true iff the name is on the call stack |
| ThreadManager.Manager.PushCallStack | app/src/thread_dependency_mgr.cpp:52-60 | appends the name, or refuses iff 32 names are there |
| ThreadManager.Manager.PopCallStack | app/src/thread_dependency_mgr.cpp:63-68 | takes the last name off, if there is one |
| ThreadManager.Manager.SetThreadState | app/src/thread_dependency_mgr.cpp:303-325 | writing one descriptor in place changes that name's state and nothing else |
| ThreadManager.Manager.WaitForDependencyReady | app/src/thread_dependency_mgr.cpp:169-202 | return code and semaphore use by the state of the dependency |
| ThreadManager.Manager.LaunchThread | app/src/thread_dependency_mgr.cpp:298-325 | runs init_func, waits for the signal, leaves the descriptor READY or FAILED accordingly, and returns what function Launch says |
| ThreadManager.Manager.StartThreadWithDependencies | app/src/thread_dependency_mgr.cpp:205-334 | the in-place recursion does what function Start says to all states, the log and the return code, and every path restores the call stack |
| ThreadManager.Manager.StartAllAutoThreads | app/src/thread_dependency_mgr.cpp:337-362 | the in-place loop does what function StartAll says, and returns its failure count |
| ThreadManager.Manager.CheckThreadDependencies | app/src/thread_dependency_mgr.cpp:141-166 | true iff the thread is registered and all its dependencies are registered and READY |
| ThreadManager.Manager.RegisterThreadDescriptor | app/src/thread_dependency_mgr.cpp:70-119 | a full registry is left alone; otherwise any descriptor, new or not and in any state, is appended with the dependencies offered (as above), and names stand for the first one registered; the whole new abstract state |
| PowerArithmetic.StagedIsExact | app/src/intel_peci.c:443-451 | the three truncating divisions equal one exact division by 2^EU·dt |
| PowerArithmetic.NoOverflow | app/src/intel_peci.c:443-449 | no intermediate leaves the 64-bit range |
| PowerArithmetic.DeltaIsTrue | app/src/intel_peci.c:438-441 | the 32-bit difference is the true growth across a wrap-around |
| PowerArithmetic.ReadingIsExact | app/src/intel_peci.c:430-453 | the reading is the exact quotient for the true counter, and the int conversion changes nothing iff 1000·ΔE < 2^31·2^EU·dt |
| PowerArithmetic.AlwaysFitsIff | app/src/intel_peci.c:451 | that holds for all counter values iff 2^EU·dt is at least 2000 |
| PowerArithmetic.ToInt32IsCongruent | app/src/intel_peci.c:451 | the conversion keeps the number modulo 2^32 and brings it into the range of an int |
| PowerArithmetic.NoPowerIff | app/src/intel_peci.c:434-436 | no power is computed iff the clock has not moved on |
| PeciDecode.ValueRoundTrip | app/src/intel_peci.c:420-423 | a 32-bit value sent as four bytes, lowest first, is read back |
| PeciDecode.FieldsOfReply | app/src/intel_peci.c:383-423 | which bytes and bits of a reply each reading is made of, and that any other completion code fails all of them |
| PeciDecode.FailedTransfer | app/src/intel_peci.c:234-238 | a failed transfer fails every reading, Tjmax with its very error |
| PeciDecode.DtsValue | app/src/intel_peci.c:262-286 | the temperature and the code for every reply: Tjmax plus the reading divided by 64, rounded down, and 0x7E00 more if it is not negative; 72 and -EAGAIN for the sensor error |
| PeciDecode.FieldValue | app/src/intel_peci.c:284 | the shift and OR give the reading divided by 64, rounded down, if it is negative; otherwise they add 0x7E00 |
| PeciDecode.MarginRange | app/src/intel_peci.c:272-286 | the margin is in 1..512 iff the reading is negative; otherwise the temperature is at least 32256 above Tjmax |
| PeciSampling.FetchFailsIff | app/src/intel_peci.c:466-474 | over all runs: a fetch fails iff the configuration has no Tjmax, every Tjmax read so far failed or gave 0, and this one fails |
| PeciSampling.FailedFetchReturns | app/src/intel_peci.c:467-473 | a fetch that fails returns the error of the Tjmax transfer, or -EIO for another completion code |
| PeciSampling.TjmaxIs | app/src/intel_peci.c:466-478 | after every run Tjmax is the configured one if not negative, otherwise the low byte of the first reply in which it is not 0 |
| PeciSampling.UnitsAre | app/src/intel_peci.c:499-516 | after every run the units are the bit fields of the first reply with an energy unit, in a fetch that did not fail; before that there is no energy unit |
| PeciSampling.CachedForGood | app/src/intel_peci.c:466-516 | over any run, a positive Tjmax never changes and known units never change |
| PeciSampling.TemperatureInvariant | app/src/intel_peci.c:480-492 | after an update at a positive Tjmax, temperature plus margin is Tjmax until the end of the run |
| PeciSampling.FailedReadKeepsTemperatureIff | app/src/intel_peci.c:485-492 | a failed GetTemp0 keeps temperature and margin iff the error is not -EAGAIN, or they were 0 and Tjmax already |
| PeciSampling.RailDependsOnOwnReadings | app/src/intel_peci.c:518-560 | over any run a power rail's state is a function of its own successful readings |
| PeciSampling.LastGoodValues | app/src/intel_peci.c:587-637 | over any run with any failures each of the six rails publishes what its own last success gave, 0 before the first |
| PeciSampling.NothingPublished | app/src/intel_peci.c:587-665 | before the first fetch every rail is 0, and so is always what does not exist |
| PeciSampling.RailsAreIndependent | app/src/intel_peci.c:480-582 | over any two runs that differ in the replies of one source only (temperature, package, DRAM, DIMM), all other data are the same, and the same fetches fail |
| PeciSampling.IntervalLoss | app/src/intel_peci.c:430-453 | in one interval the energy published is never more than the true one, and less than one watt is lost iff the power fits an int |
| PeciSampling.EnergyConserved | app/src/intel_peci.c:518-560 | over any list of readings the published watts never exceed the true energy from first to last, and if the power always fits an int account for it up to less than one watt over that time |
| PeciSampling.RunConservesEnergy | app/src/intel_peci.c:518-560 | the same for any run of the driver, for package and DRAM each on its own |
| PeciSampling.SlowRunsConserveEnergy | app/src/intel_peci.c:518-560 | when successive readings are at least 2000/2^EU milliseconds apart, a run accounts for all true energy up to less than one watt, without a condition on the power |
| PeciDriver.PeciData.constructor | app/src/intel_peci.c:644-671 | initialisation gives the initial data |
| PeciDriver.PeciData.SampleFetch | app/src/intel_peci.c:457-585 | the in-place updates do what function Fetch says, for every configuration, state and set of replies |
| PeciDriver.PeciData.GetChannel | app/src/intel_peci.c:587-637 | which field each channel and rail number publishes |
| ShellWorker.StepKeepsHeap | app/src/i2c_tools_shell.c:72-155 | every step of anybody keeps: each live block has exactly one holder, who will free it |
| ShellWorker.EveryBlockFreedOnce | app/src/i2c_tools_shell.c:72-155 | for every interleaving, with early exits and permuted argv: no double or foreign free, every live block in somebody's hands, and nothing left once all are done |
| ShellWorker.SerialInOrder | app/src/i2c_tools_shell.c:55-108 | commands start and retire one at a time in order of acceptance; at most two accepted ones are unretired |
| ShellWorker.SessionRouting | app/src/i2c_tools_shell.c:78-107 | while a tool runs the global shell is its own command's, while the worker waits it is null, and no tool starts with a device left open |
| ShellHistory.ToolGetsCommand | app/src/i2c_tools_shell.c:112-140 | over every run: the command a tool is started with is the next one accepted, with the session, tool and number of arguments of its Malloc, and with all copies made since, in that order |
| ShellHistory.ToolKeepsCommand | app/src/busctl_shell.c:58-74 | while the tool runs it is still that command, but for the order of its arguments |
| ShellHistory.AnswerIsRight | app/src/i2c_tools_shell.c:118-154 | over every run: a caller is told 0 iff its command has been accepted, -EBUSY iff it has been refused, -ENOMEM iff an allocation failed, and then nothing of it is left with the producer |
| ShellWorker.AlwaysDrains | app/src/i2c_tools_shell.c:72-108 | from every reachable state the worker can by itself retire all accepted commands and then waits; if no producer is at work, no block is left |
| ShellWorker.BusyWorkerAccepts | app/src/i2c_tools_shell.c:142-152 | for either program, any producers and sessions: a run to a state in which a tool is running and the next command is accepted |
| ShellWorker.WaitingWorkerRefuses | app/src/busctl_shell.c:104-114 | likewise one in which the worker waits and the next command is refused |
| ShellWorker.StepKeepsOrder | app/src/i2c_tools_shell.c:72-155 | every step of anybody keeps the order of acceptance, start and retirement and the value of the global shell |
| ShellWorker.RunKeeps | app/src/i2c_tools_shell.c:64-155 | so every run of either program keeps them, and the ownership of the blocks |
| FileTree.NothingBelow | app/src/config_fs.c:622 | in a well-formed tree a directory without children has nothing below it |
| FileTree.RemoveKeepsWellFormed | app/src/config_fs.c:613-622 | deleting a leaf leaves the tree well-formed |
| RecursiveDelete.FullPathIff | app/src/config_fs.c:596 | the buffer holds the child's path iff it has room for it; a path of 1023 characters is otherwise its own child |
| RecursiveDelete.ChildText | app/src/config_fs.c:596 | with more than two characters left the buffer names an entry of the same directory, with less it leads to the directory itself or to where the beginning of its path leads |
| RecursiveDelete.SelfChildIff | app/src/config_fs.c:596-601 | the path handed to the recursive call leads to the directory itself iff its own has 1022 or 1023 characters |
| RecursiveDelete.StuckAgain | app/src/config_fs.c:596-615 | in that case nothing can be unlinked by way of the buffer, and the recursive call is in the same case again |
| RecursiveDelete.LongPathForgetsName | app/src/config_fs.c:596 | a path of 1023 or more characters has its own beginning for every child |
| RecursiveDelete.FsRmRf | app/src/config_fs.c:571-628 | for every path, tree and room for calls on the stack: no handle is open beyond those before; nothing outside the subtree changes, but for the beginning of a path that does not fit; what does not fit the buffer stays; the code is that of the last call made; 0 means the subtree is gone; on a device that does not fail, with one handle free, 0 iff an existing directory other than the root in which every path fits; the recursion ends unless a directory may be its own child, and never ends if this one is |
| RecursiveDelete.ScanAll | app/src/config_fs.c:586-618 | whatever calls fail: a scan that comes to the end has handed everything left in the directory to unlink |
| RecursiveDelete.ScanStep | app/src/config_fs.c:586-618 | each entry either makes the tree smaller or moves the scan on, and what is behind the scan stays deleted |
| RecursiveDelete.ScansRoot | app/src/config_fs.c:596-617 | a step for which the buffer has no room leaves the directory and all in it, and takes at most the node that the buffer leads to |
| RecursiveDelete.RemoveEntry | app/src/config_fs.c:596-617 | a subdirectory is deleted with the handle closed and the scan restarts; a file is unlinked in place; of paths that fit, exactly the entry read goes |
| DirectoryCreation.CutsAreThePrefixes | app/src/config_fs.c:709-720 | the intermediate directories are exactly the prefixes before a '/' from the start index on |
| DirectoryCreation.CutsIncrease | app/src/config_fs.c:709-720 | in increasing length |
| DirectoryCreation.CallsArePrefixes | app/src/config_fs.c:684-729 | for every path that is not empty, buffer and device: the calls are the prefixes before each '/' behind the first character, or behind "/name:/" where the path has that, in increasing length, then what the buffer holds; they end with the first failure, whose code is returned |
| DirectoryCreation.StartIndexIs | app/src/config_fs.c:696-702 | where cutting starts, in terms of the path alone |
| DirectoryCreation.MakeAllMakes | app/src/config_fs.c:709-729 | the calls issued are these and the full path, up to the first failure, whose code is returned; those before it exist afterwards, and nothing else is new |
| DirectoryCreation.MakeAllAgain | app/src/config_fs.c:714-728 | when all of them exist, a call changes nothing, whatever fails |
| DirectoryCreation.TargetsFormChain | app/src/config_fs.c:709-723 | each directory made is the one before it or lies directly in it |
| DirectoryCreation.QuietSuccessIff | app/src/config_fs.c:709-729 | on a device that does not fail all are made iff the first can be and none above another is a file or has a dot name |
| DirectoryCreation.MkdirDir | app/src/config_fs.c:679-730 | the loop over the scratch buffer does what MkdirOutcome says to every path: an empty one is -EINVAL, a bare mount point 0 without a call, and otherwise exactly these calls are made |
| DirectoryCreation.CutAndMake | app/src/config_fs.c:709-729 | the same for the loop alone, from any start index |
| DirectoryCreation.MakePrefix | app/src/config_fs.c:711-719 | the '/' overwritten for one call is put back: the buffer is the path again |
| DirectoryCreation.SuccessMeansExists | app/src/config_fs.c:679-730 | for every path and buffer: after a return of 0 the directory exists iff it did before, or there was something to make and only '/' was cut off; all directories on the way exist, and a second call changes nothing |
| DirectoryCreation.ReturnsZeroIff | app/src/config_fs.c:679-730 | the exact condition for 0 on a device that does not fail: the path is not empty, and there is nothing to make or the first directory can be made and none above another is a file or has a dot name |
| DirectoryCreation.SplitPrefixIff | app/src/config_fs.c:690-691 | a path that is cut off still names the same place iff only '/' is missing |
| DirectoryCreation.LongPathIsCutOff | app/src/config_fs.c:690-691 | for every size of the buffer from three characters on there is a path that yields 0 although its directory does not exist |

## Left out

- Several threads in the manager at once, and its mutexes: the source protects only single pushes and pops, and its one caller is sequential.
- Real time-outs, logging, `print_thread_status`, and the limit of 31 characters on a thread's name.
- A call of `init_func` that uses the manager itself.
- PeciSampling.RunConservesEnergy: is stated for readings of a true counter that grows by less than 2^32 between them, with a later clock. Its upper bound is for a power that always fits an int; `IntervalLoss` shows that an interval loses less than one watt only then, and `SlowRunsConserveEnergy` when that is certain.
- The byte of a GetTemp0 reply that serves as completion code and as data at once (`app/src/intel_peci.c:267-273`): the reply is a failure or a signed 16-bit word.
- RecursiveDelete.FsRmRf: takes the number of calls that the stack has room for, and says whether it was enough, in the place of a recursion that may not end; the time and stack a real call takes are not modelled. For a path of less than 1022 characters the recursion is proved to end when no directory below can be its own child; that it does not end otherwise is proved for the directory itself only.
- Registering a descriptor again with other dependencies after its thread has started: what the registry then holds is proved, but the invariants of whole runs are for operations that register descriptors in state INITIAL, as `THREAD_DEFINE` does.
- The long methods of the source are split at the beginnings of their sections and loop bodies (`VisitThread`, `StartDependency`, `AwaitReady`, `StartIfAuto`, `ScanStep`, `RemoveEntry`, `MakePrefix`, `FetchPower` and others); the order of steps is that of the source.
- The PECI bus transfer, the alternative DIMM path through RdIAMSR, and the device that is not ready at initialisation. The header that defines `PECI_CC_RSP_SUCCESS` is not part of this model; it is taken to be 0x40.
- What the shell tools do, beyond permuting their arguments, opening the device and leaving early; the null pointer behind the last argument. Setting the global shell and starting the tool are one step, as nothing reads it in between.
- The resolution of "." and ".." in paths (a name that is cut off to ".." is one that does not exist here), name comparison without case, and the limits of FAT.
- Files in `config_fs.c` other than the two algorithms: the JSON literals, `lsdir_recursive`, `read_file`, `write_config`.
- `dbroker.c`, `socketpool.c`, `test_deployment.c`, `task_def.cpp`, `main.cpp`, the fake drivers, stubs and configuration: calls into libraries, repeated wrappers or fixed tables.
